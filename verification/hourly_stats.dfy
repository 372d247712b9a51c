/** pg_writer.py: HourlyAccumulator, and what the rows it flushes say. */
module HourlyStats {
  import opened Options
  import opened Percentile
  import opened Tables

  const ON_TIME_THRESHOLD := 180.0
  const HOUR := 3600
  const UNKNOWN := "unknown"

  datatype Deviation = Deviation(vehicle: int, route: Option<string>, seconds: real)

  datatype Bunching = Bunching(isNew: bool, route: string)

  datatype WindowResult = WindowResult(deviations: seq<Deviation>, actions: seq<Bunching>)

  datatype RouteData = RouteData(deviations: seq<real>, vehicles: set<int>, onTime: nat, total: nat, newBunching: nat)

  datatype Row = Row(
    route: string,
    hour: int,
    avgDeviation: real,
    p95Deviation: real,
    vehicleCount: nat,
    onTimePct: real,
    bunchingEvents: nat)

  // ----- a route's own observations

  /** dev.route_id or "unknown" */
  function RouteOf(d: Deviation): string {
    if d.route.None? || d.route.value == "" then UNKNOWN else d.route.value
  }

  function Magnitude(d: Deviation): real {
    if d.seconds < 0.0 then -d.seconds else d.seconds
  }

  function Own(devs: seq<Deviation>, route: string): seq<Deviation> {
    if devs == [] then []
    else
      var n := |devs| - 1;
      Own(devs[..n], route) + (if RouteOf(devs[n]) == route then [devs[n]] else [])
  }

  function Magnitudes(devs: seq<Deviation>): seq<real> {
    seq(|devs|, i requires 0 <= i < |devs| => Magnitude(devs[i]))
  }

  function Vehicles(devs: seq<Deviation>): set<int> {
    set d | d in devs :: d.vehicle
  }

  function OnTime(devs: seq<Deviation>): nat {
    if devs == [] then 0
    else OnTime(devs[..|devs|-1]) + (if Magnitude(devs[|devs|-1]) <= ON_TIME_THRESHOLD then 1 else 0)
  }

  /** The "new" actions on a route: an update was counted when it was new. */
  function NewsOf(acts: seq<Bunching>, route: string): nat {
    if acts == [] then 0
    else
      var a := acts[|acts|-1];
      NewsOf(acts[..|acts|-1], route) + (if a.isNew && a.route == route then 1 else 0)
  }

  function Sum(values: seq<real>): real {
    if values == [] then 0.0 else Sum(values[..|values|-1]) + values[|values|-1]
  }

  function Identity(x: real): real { x }

  function DataOf(devs: seq<Deviation>, acts: seq<Bunching>, route: string): RouteData {
    var own := Own(devs, route);
    RouteData(Magnitudes(own), Vehicles(own), OnTime(own), |own|, NewsOf(acts, route))
  }

  /** Mean, 95th percentile, distinct vehicles, on-time share and new incidents of exactly the route's own observations. */
  ghost function RowOf(route: string, hour: int, devs: seq<Deviation>, acts: seq<Bunching>): Row {
    var own := Own(devs, route);
    var sizes := Magnitudes(own);
    Row(route, hour,
        if own == [] then 0.0 else Sum(sizes) / |own| as real,
        ComputeP95(SortBy(sizes, Identity)),
        |Vehicles(own)|,
        if own == [] then 0.0 else OnTime(own) as real / |own| as real * 100.0,
        NewsOf(acts, route))
  }

  ghost predicate HasData(route: string, devs: seq<Deviation>, acts: seq<Bunching>) {
    (exists d :: d in devs && RouteOf(d) == route) || (exists a :: a in acts && a.isNew && a.route == route)
  }

  /** The rows of one hour: one a route that has data, each over its own observations. */
  ghost predicate Summarises(rows: seq<Row>, hour: int, devs: seq<Deviation>, acts: seq<Bunching>) {
    && (forall i, j :: 0 <= i < j < |rows| ==> rows[i].route != rows[j].route)
    && (forall row :: row in rows ==> row == RowOf(row.route, hour, devs, acts) && HasData(row.route, devs, acts))
    && (forall route :: HasData(route, devs, acts) ==> exists row :: row in rows && row.route == route)
  }

  // ----- adding one observation

  lemma OwnGrows(devs: seq<Deviation>, d: Deviation, route: string)
    ensures Own(devs + [d], route) == Own(devs, route) + (if RouteOf(d) == route then [d] else [])
  {
    assert (devs + [d])[..|devs|] == devs;
  }

  lemma NewsGrow(acts: seq<Bunching>, a: Bunching, route: string)
    ensures NewsOf(acts + [a], route) == NewsOf(acts, route) + (if a.isNew && a.route == route then 1 else 0)
  {
    assert (acts + [a])[..|acts|] == acts;
  }

  lemma OnTimeGrows(devs: seq<Deviation>, d: Deviation)
    ensures OnTime(devs + [d]) == OnTime(devs) + (if Magnitude(d) <= ON_TIME_THRESHOLD then 1 else 0)
  {
    assert (devs + [d])[..|devs|] == devs;
  }

  function WithDeviation(data: RouteData, d: Deviation): RouteData {
    RouteData(data.deviations + [Magnitude(d)], data.vehicles + {d.vehicle},
              data.onTime + (if Magnitude(d) <= ON_TIME_THRESHOLD then 1 else 0), data.total + 1, data.newBunching)
  }

  lemma VehiclesGrow(own: seq<Deviation>, d: Deviation)
    ensures Vehicles(own + [d]) == Vehicles(own) + {d.vehicle}
  {
    assert d in own + [d];
    forall v | v in Vehicles(own) ensures v in Vehicles(own + [d]) {
      var o :| o in own && o.vehicle == v;
      assert o in own + [d];
    }
  }

  lemma OwnDataGrows(own: seq<Deviation>, d: Deviation, news: nat)
    ensures RouteData(Magnitudes(own + [d]), Vehicles(own + [d]), OnTime(own + [d]), |own + [d]|, news)
            == WithDeviation(RouteData(Magnitudes(own), Vehicles(own), OnTime(own), |own|, news), d)
  {
    VehiclesGrow(own, d);
    OnTimeGrows(own, d);
    assert Magnitudes(own + [d]) == Magnitudes(own) + [Magnitude(d)];
  }

  lemma DataGrows(devs: seq<Deviation>, acts: seq<Bunching>, d: Deviation, route: string)
    ensures DataOf(devs + [d], acts, route)
            == if RouteOf(d) == route then WithDeviation(DataOf(devs, acts, route), d) else DataOf(devs, acts, route)
  {
    OwnGrows(devs, d, route);
    assert Own(devs, route) + [] == Own(devs, route);
    OwnDataGrows(Own(devs, route), d, NewsOf(acts, route));
  }

  lemma {:induction false} NoOwn(devs: seq<Deviation>, route: string)
    requires forall d :: d in devs ==> RouteOf(d) != route
    ensures Own(devs, route) == []
  {
    if devs != [] {
      NoOwn(devs[..|devs|-1], route);
    }
  }

  lemma {:induction false} NoNews(acts: seq<Bunching>, route: string)
    requires forall a :: a in acts && a.isNew ==> a.route != route
    ensures NewsOf(acts, route) == 0
  {
    if acts != [] {
      NoNews(acts[..|acts|-1], route);
    }
  }

  /** The mean does not depend on the order it is summed in. */
  lemma {:induction false} InsertKeepsSum(values: seq<real>, x: real)
    ensures Sum(InsertBy(values, x, Identity)) == Sum(values) + x
  {
    if values != [] && x >= values[0] {
      InsertKeepsSum(values[1..], x);
      SumFromFront(values);
      SumFromFront(InsertBy(values, x, Identity));
    } else {
      SumFromFront([x] + values);
      assert ([x] + values)[1..] == values;
    }
  }

  lemma {:induction false} SumFromFront(values: seq<real>)
    requires values != []
    ensures Sum(values) == values[0] + Sum(values[1..])
  {
    if |values| > 1 {
      SumFromFront(values[..|values|-1]);
      assert values[..|values|-1][1..] == values[1..][..|values|-2];
    }
  }

  lemma {:induction false} SortKeepsSum(values: seq<real>)
    ensures Sum(SortBy(values, Identity)) == Sum(values)
  {
    if values != [] {
      SortKeepsSum(values[..|values|-1]);
      InsertKeepsSum(SortBy(values[..|values|-1], Identity), values[|values|-1]);
    }
  }

  // ----- a row, in the fields of the observations it is over

  /** Deviations without a route count under "unknown". */
  ghost predicate IsOn(d: Deviation, route: string) {
    if d.route.None? || d.route.value == "" then route == "unknown" else d.route.value == route
  }

  /** How late or early, without the sign. */
  ghost function Abs(x: real): real {
    if x >= 0.0 then x else 0.0 - x
  }

  /** The places of the route's deviations, in order. */
  ghost predicate Lists(at: seq<nat>, devs: seq<Deviation>, route: string) {
    && (forall j, k :: 0 <= j < k < |at| ==> at[j] < at[k])
    && (forall i: nat :: i in at <==> i < |devs| && IsOn(devs[i], route))
  }

  ghost predicate Within(at: seq<nat>, devs: seq<Deviation>) {
    forall k :: 0 <= k < |at| ==> at[k] < |devs|
  }

  ghost function AbsAt(at: seq<nat>, devs: seq<Deviation>): seq<real>
    requires Within(at, devs)
  {
    seq(|at|, k requires 0 <= k < |at| => Abs(devs[at[k]].seconds))
  }

  ghost function AbsSum(at: seq<nat>, devs: seq<Deviation>): real
    requires Within(at, devs)
  {
    if at == [] then 0.0
    else AbsSum(at[..|at|-1], devs) + Abs(devs[at[|at|-1]].seconds)
  }

  ghost function VehiclesAt(at: seq<nat>, devs: seq<Deviation>): set<int>
    requires Within(at, devs)
  {
    set k | 0 <= k < |at| :: devs[at[k]].vehicle
  }

  /** Three minutes off at most, either way. */
  ghost function OnTimeAt(at: seq<nat>, devs: seq<Deviation>): set<int>
    requires Within(at, devs)
  {
    set k | 0 <= k < |at| && -180.0 <= devs[at[k]].seconds <= 180.0
  }

  ghost function NewAt(acts: seq<Bunching>, route: string): set<int> {
    set j | 0 <= j < |acts| && acts[j].isNew && acts[j].route == route
  }

  /** The mean size, and how many of 100 were on time. */
  ghost predicate SharesOf(row: Row, devs: seq<Deviation>, at: seq<nat>)
    requires Within(at, devs)
  {
    if at == [] then row.avgDeviation == 0.0 && row.onTimePct == 0.0
    else
      && row.avgDeviation == AbsSum(at, devs) / |at| as real
      && row.onTimePct == |OnTimeAt(at, devs)| as real / |at| as real * 100.0
  }

  /** The 95th percentile of the sizes in order. */
  ghost predicate RanksOf(row: Row, devs: seq<Deviation>, at: seq<nat>, sorted: seq<real>)
    requires Within(at, devs)
  {
    Ascending(sorted) && multiset(sorted) == multiset(AbsAt(at, devs)) && row.p95Deviation == ComputeP95(sorted)
  }

  /** What a row says of its route's deviations, of their vehicles and of its new incidents. */
  ghost predicate SaysOf(row: Row, hour: int, devs: seq<Deviation>, acts: seq<Bunching>, at: seq<nat>, sorted: seq<real>) {
    && Lists(at, devs, row.route) && Within(at, devs) && row.hour == hour
    && SharesOf(row, devs, at) && RanksOf(row, devs, at, sorted)
    && row.vehicleCount == |VehiclesAt(at, devs)| && row.bunchingEvents == |NewAt(acts, row.route)|
  }

  ghost predicate Says(row: Row, hour: int, devs: seq<Deviation>, acts: seq<Bunching>) {
    exists at, sorted :: SaysOf(row, hour, devs, acts, at, sorted)
  }

  lemma {:induction false} OwnIsListed(devs: seq<Deviation>, route: string) returns (at: seq<nat>)
    ensures Lists(at, devs, route) && Within(at, devs)
    ensures |at| == |Own(devs, route)| && forall k :: 0 <= k < |at| ==> Own(devs, route)[k] == devs[at[k]]
  {
    at := [];
    if devs != [] {
      var n := |devs| - 1;
      at := OwnIsListed(devs[..n], route);
      forall k | 0 <= k < |at| ensures at[k] < n {
        assert at[k] in at;
      }
      if RouteOf(devs[n]) == route {
        at := at + [n];
      }
    }
  }

  lemma {:induction false} SumsAgree(own: seq<Deviation>, devs: seq<Deviation>, at: seq<nat>)
    requires Within(at, devs) && |own| == |at| && forall k :: 0 <= k < |at| ==> own[k] == devs[at[k]]
    ensures Sum(Magnitudes(own)) == AbsSum(at, devs) && Magnitudes(own) == AbsAt(at, devs)
  {
    if at != [] {
      var n := |at| - 1;
      SumsAgree(own[..n], devs, at[..n]);
      assert Magnitudes(own)[..n] == Magnitudes(own[..n]);
    }
  }

  lemma {:induction false} OnTimeAgrees(own: seq<Deviation>, devs: seq<Deviation>, at: seq<nat>)
    requires Within(at, devs) && |own| == |at| && forall k :: 0 <= k < |at| ==> own[k] == devs[at[k]]
    ensures OnTime(own) == |OnTimeAt(at, devs)|
  {
    if at != [] {
      var n := |at| - 1;
      OnTimeAgrees(own[..n], devs, at[..n]);
      OneMoreOnTime(at, devs);
    }
  }

  lemma OneMoreOnTime(at: seq<nat>, devs: seq<Deviation>)
    requires Within(at, devs) && at != []
    ensures var n := |at| - 1;
            |OnTimeAt(at, devs)| == |OnTimeAt(at[..n], devs)| + (if -180.0 <= devs[at[n]].seconds <= 180.0 then 1 else 0)
  {
    var n := |at| - 1;
    assert OnTimeAt(at, devs) == OnTimeAt(at[..n], devs) + (if -180.0 <= devs[at[n]].seconds <= 180.0 then {n} else {});
  }

  lemma VehiclesAgree(own: seq<Deviation>, devs: seq<Deviation>, at: seq<nat>)
    requires Within(at, devs) && |own| == |at| && forall k :: 0 <= k < |at| ==> own[k] == devs[at[k]]
    ensures Vehicles(own) == VehiclesAt(at, devs)
  {
    forall v | v in Vehicles(own) ensures v in VehiclesAt(at, devs) {
      var d :| d in own && d.vehicle == v;
      var k :| 0 <= k < |own| && own[k] == d;
    }
    forall v | v in VehiclesAt(at, devs) ensures v in Vehicles(own) {
      var k :| 0 <= k < |at| && devs[at[k]].vehicle == v;
      assert own[k] in own;
    }
  }

  lemma {:induction false} NewsAgree(acts: seq<Bunching>, route: string)
    ensures NewsOf(acts, route) == |NewAt(acts, route)|
  {
    if acts != [] {
      NewsAgree(acts[..|acts|-1], route);
      OneMoreNew(acts, route);
    }
  }

  lemma OneMoreNew(acts: seq<Bunching>, route: string)
    requires acts != []
    ensures var n := |acts| - 1;
            |NewAt(acts, route)| == |NewAt(acts[..n], route)| + (if acts[n].isNew && acts[n].route == route then 1 else 0)
  {
    var n := |acts| - 1;
    assert NewAt(acts, route) == NewAt(acts[..n], route) + (if acts[n].isNew && acts[n].route == route then {n} else {});
  }

  lemma RowShares(route: string, hour: int, devs: seq<Deviation>, acts: seq<Bunching>, at: seq<nat>)
    requires Within(at, devs) && |at| == |Own(devs, route)| && forall k :: 0 <= k < |at| ==> Own(devs, route)[k] == devs[at[k]]
    ensures SharesOf(RowOf(route, hour, devs, acts), devs, at)
  {
    var own := Own(devs, route);
    SumsAgree(own, devs, at);
    OnTimeAgrees(own, devs, at);
  }

  lemma RowRanks(route: string, hour: int, devs: seq<Deviation>, acts: seq<Bunching>, at: seq<nat>)
    requires Within(at, devs) && |at| == |Own(devs, route)| && forall k :: 0 <= k < |at| ==> Own(devs, route)[k] == devs[at[k]]
    ensures RanksOf(RowOf(route, hour, devs, acts), devs, at, SortBy(Magnitudes(Own(devs, route)), Identity))
  {
    SumsAgree(Own(devs, route), devs, at);
    SortIsAscending(Magnitudes(Own(devs, route)));
  }

  /** The row of a route says just that. */
  lemma RowOfSays(route: string, hour: int, devs: seq<Deviation>, acts: seq<Bunching>)
    ensures Says(RowOf(route, hour, devs, acts), hour, devs, acts)
  {
    var at := OwnIsListed(devs, route);
    RowShares(route, hour, devs, acts, at);
    RowRanks(route, hour, devs, acts, at);
    VehiclesAgree(Own(devs, route), devs, at);
    NewsAgree(acts, route);
    assert SaysOf(RowOf(route, hour, devs, acts), hour, devs, acts, at, SortBy(Magnitudes(Own(devs, route)), Identity));
  }

  lemma SortIsAscending(values: seq<real>)
    ensures Ascending(SortBy(values, Identity)) && multiset(SortBy(values, Identity)) == multiset(values)
  {
    SortSorts(values, Identity);
    var sorted := SortBy(values, Identity);
    forall i, j | 0 <= i < j < |sorted| ensures sorted[i] <= sorted[j] {
      assert Identity(sorted[i]) <= Identity(sorted[j]);
    }
  }

  // ----- the accumulator

  /** The start of the hour. */
  function Truncate(time: int): (h: int)
    ensures h <= time < h + 3600 && h % 3600 == 0
  {
    time - time % HOUR
  }

  const EMPTY := RouteData([], {}, 0, 0, 0)

  /** One entry a route that has data, over exactly its own. */
  ghost predicate Tracks(routeData: map<string, RouteData>, devs: seq<Deviation>, acts: seq<Bunching>) {
    && (forall route :: route in routeData ==> routeData[route] == DataOf(devs, acts, route))
    && (forall route :: route in routeData <==> HasData(route, devs, acts))
  }

  lemma HasDataGrows(devs: seq<Deviation>, acts: seq<Bunching>, d: Deviation, route: string)
    ensures HasData(route, devs + [d], acts) <==> HasData(route, devs, acts) || route == RouteOf(d)
  {
    assert d in devs + [d];
  }

  lemma HasNewsGrows(devs: seq<Deviation>, acts: seq<Bunching>, a: Bunching, route: string)
    ensures HasData(route, devs, acts + [a]) <==> HasData(route, devs, acts) || (a.isNew && route == a.route)
  {
    assert a in acts + [a];
  }

  lemma TracksDeviation(routeData: map<string, RouteData>, devs: seq<Deviation>, acts: seq<Bunching>, d: Deviation)
    requires Tracks(routeData, devs, acts)
    ensures Tracks(routeData[RouteOf(d) := WithDeviation(DataOf(devs, acts, RouteOf(d)), d)], devs + [d], acts)
  {
    var now := routeData[RouteOf(d) := WithDeviation(DataOf(devs, acts, RouteOf(d)), d)];
    forall route ensures route in now <==> HasData(route, devs + [d], acts) {
      HasDataGrows(devs, acts, d, route);
    }
    forall route | route in now ensures now[route] == DataOf(devs + [d], acts, route) {
      DataGrows(devs, acts, d, route);
    }
  }

  lemma NewsDataGrows(devs: seq<Deviation>, acts: seq<Bunching>, a: Bunching, route: string)
    ensures var data := DataOf(devs, acts, route);
            DataOf(devs, acts + [a], route)
            == if a.isNew && a.route == route then data.(newBunching := data.newBunching + 1) else data
  {
    NewsGrow(acts, a, route);
  }

  lemma TracksUpdate(routeData: map<string, RouteData>, devs: seq<Deviation>, acts: seq<Bunching>, a: Bunching)
    requires Tracks(routeData, devs, acts) && !a.isNew
    ensures Tracks(routeData, devs, acts + [a])
  {
    forall route ensures HasData(route, devs, acts + [a]) <==> HasData(route, devs, acts) {
      HasNewsGrows(devs, acts, a, route);
    }
    forall route | route in routeData ensures routeData[route] == DataOf(devs, acts + [a], route) {
      NewsDataGrows(devs, acts, a, route);
    }
  }

  lemma TracksNew(routeData: map<string, RouteData>, devs: seq<Deviation>, acts: seq<Bunching>, a: Bunching, data: RouteData)
    requires Tracks(routeData, devs, acts) && a.isNew && data == DataOf(devs, acts, a.route)
    ensures Tracks(routeData[a.route := data.(newBunching := data.newBunching + 1)], devs, acts + [a])
  {
    var now := routeData[a.route := data.(newBunching := data.newBunching + 1)];
    forall route ensures route in now <==> HasData(route, devs, acts + [a]) {
      HasNewsGrows(devs, acts, a, route);
    }
    forall route | route in now ensures now[route] == DataOf(devs, acts + [a], route) {
      NewsDataGrows(devs, acts, a, route);
    }
  }

  /** The rows of some of the tracked routes. */
  ghost predicate Covers(stats: seq<Row>, routes: set<string>, hour: int, devs: seq<Deviation>, acts: seq<Bunching>) {
    && (forall i, j :: 0 <= i < j < |stats| ==> stats[i].route != stats[j].route)
    && (forall row :: row in stats ==> row.route in routes && row == RowOf(row.route, hour, devs, acts))
    && (forall route :: route in routes ==> exists row :: row in stats && row.route == route)
  }

  ghost predicate Splits(all: set<string>, done: set<string>, rest: set<string>) {
    done !! rest && all == done + rest
  }

  lemma SplitsNext(all: set<string>, done: set<string>, rest: set<string>, route: string)
    requires Splits(all, done, rest) && route in rest
    ensures Splits(all, done + {route}, rest - {route}) && route in all && route !in done
  {
  }

  lemma CoversMore(stats: seq<Row>, routes: set<string>, hour: int, devs: seq<Deviation>, acts: seq<Bunching>, route: string)
    requires Covers(stats, routes, hour, devs, acts) && route !in routes
    ensures Covers(stats + [RowOf(route, hour, devs, acts)], routes + {route}, hour, devs, acts)
  {
    var row := RowOf(route, hour, devs, acts);
    assert row in stats + [row];
    forall other | other in routes ensures exists r :: r in stats + [row] && r.route == other {
      var r :| r in stats && r.route == other;
      assert r in stats + [row];
    }
    forall i | 0 <= i < |stats| ensures stats[i].route != route {
      assert stats[i] in stats;
    }
  }

  lemma CoversAll(stats: seq<Row>, routeData: map<string, RouteData>, hour: int, devs: seq<Deviation>, acts: seq<Bunching>)
    requires Tracks(routeData, devs, acts) && Covers(stats, routeData.Keys, hour, devs, acts)
    ensures Summarises(stats, hour, devs, acts)
  {
  }

  class HourlyAccumulator {
    var currentHour: Option<int>
    var routeData: map<string, RouteData>
    ghost var devs: seq<Deviation>     // everything accumulated since the last flush
    ghost var acts: seq<Bunching>

    ghost predicate Valid()
      reads this
    {
      Tracks(routeData, devs, acts)
    }

    constructor ()
      ensures Valid() && currentHour == None && devs == [] && acts == []
    {
      currentHour, routeData, devs, acts := None, map[], [], [];
    }

    /** self._route_data[route]: absent routes begin empty. */
    method Lookup(route: string) returns (data: RouteData)
      requires Valid()
      ensures data == DataOf(devs, acts, route)
    {
      if route in routeData {
        data := routeData[route];
      } else {
        data := EMPTY;
        NoOwn(devs, route);
        NoNews(acts, route);
      }
    }

    /** One deviation more in a route's data. */
    static method Counted(data: RouteData, d: Deviation) returns (more: RouteData)
      ensures more == WithDeviation(data, d)
    {
      var size := Magnitude(d);
      more := data.(deviations := data.deviations + [size], vehicles := data.vehicles + {d.vehicle}, total := data.total + 1);
      if size <= ON_TIME_THRESHOLD {
        more := more.(onTime := more.onTime + 1);
      }
    }

    method AddDeviation(d: Deviation)
      requires Valid()
      modifies this
      ensures Valid() && devs == old(devs) + [d] && acts == old(acts) && currentHour == old(currentHour)
    {
      var routeId := RouteOf(d);
      var data := Lookup(routeId);
      data := Counted(data, d);
      TracksDeviation(routeData, devs, acts, d);
      routeData := routeData[routeId := data];
      devs := devs + [d];
    }

    method AddBunching(a: Bunching)
      requires Valid()
      modifies this
      ensures Valid() && acts == old(acts) + [a] && devs == old(devs) && currentHour == old(currentHour)
    {
      if a.isNew {
        var data := Lookup(a.route);
        TracksNew(routeData, devs, acts, a, data);
        routeData := routeData[a.route := data.(newBunching := data.newBunching + 1)];
      } else {
        TracksUpdate(routeData, devs, acts, a);
      }
      acts := acts + [a];
    }

    method Accumulate(result: WindowResult)
      requires Valid()
      modifies this
      ensures Valid() && currentHour == old(currentHour)
      ensures devs == old(devs) + result.deviations && acts == old(acts) + result.actions
    {
      var i := 0;
      while i < |result.deviations|
        invariant 0 <= i <= |result.deviations| && Valid() && currentHour == old(currentHour)
        invariant devs == old(devs) + result.deviations[..i] && acts == old(acts)
      {
        AddDeviation(result.deviations[i]);
        i := i + 1;
      }
      assert result.deviations[..i] == result.deviations;
      i := 0;
      while i < |result.actions|
        invariant 0 <= i <= |result.actions| && Valid() && currentHour == old(currentHour)
        invariant devs == old(devs) + result.deviations && acts == old(acts) + result.actions[..i]
      {
        AddBunching(result.actions[i]);
        i := i + 1;
      }
      assert result.actions[..i] == result.actions;
    }

    method SumUp(route: string, hour: int) returns (row: Row)
      requires Valid() && route in routeData
      ensures row == RowOf(route, hour, devs, acts)
    {
      var data := routeData[route];
      var sortedDevs := SortBy(data.deviations, Identity);
      SortKeepsSum(data.deviations);
      var total := data.total;
      row := Row(route, hour,
                 if total > 0 then Sum(sortedDevs) / total as real else 0.0,
                 ComputeP95(sortedDevs),
                 |data.vehicles|,
                 if total > 0 then data.onTime as real / total as real * 100.0 else 0.0,
                 data.newBunching);
    }

    /** The row of a route, and what it says. */
    method RowFor(route: string, hour: int) returns (row: Row)
      requires Valid() && route in routeData
      ensures row == RowOf(route, hour, devs, acts) && row.route == route && Says(row, hour, devs, acts)
    {
      row := SumUp(route, hour);
      RowOfSays(route, hour, devs, acts);
    }

    /** One turn of _flush's loop; a route with nothing to show would be skipped. */
    method AppendRow(route: string, hour: int, stats: seq<Row>, ghost done: set<string>) returns (more: seq<Row>)
      requires Valid() && route in routeData && route !in done && Covers(stats, done, hour, devs, acts)
      ensures Covers(more, done + {route}, hour, devs, acts)
    {
      more := stats;
      NotBlank(route, devs, acts);
      var row := RowFor(route, hour);
      if !(routeData[route].total == 0 && routeData[route].newBunching == 0) {
        more := more + [row];
      }
      CoversMore(stats, done, hour, devs, acts, route);
    }

    method Rows(hour: int) returns (stats: seq<Row>)
      requires Valid()
      ensures Covers(stats, routeData.Keys, hour, devs, acts)
    {
      stats := [];
      var routes := routeData.Keys;
      ghost var done: set<string> := {};
      while routes != {}
        invariant Splits(routeData.Keys, done, routes)
        invariant Covers(stats, done, hour, devs, acts)
        decreases |routes|
      {
        var route :| route in routes;
        SplitsNext(routeData.Keys, done, routes, route);
        stats := AppendRow(route, hour, stats, done);
        routes, done := routes - {route}, done + {route};
      }
    }

    /** _flush: one row a tracked route, and a clean slate. */
    method Flush(hour: int) returns (stats: seq<Row>)
      requires Valid()
      modifies this
      ensures Valid() && devs == [] && acts == [] && currentHour == old(currentHour)
      ensures Summarises(stats, hour, old(devs), old(acts))
      ensures forall row :: row in stats ==> Says(row, hour, old(devs), old(acts))
    {
      stats := Rows(hour);
      forall row | row in stats ensures Says(row, hour, devs, acts) {
        RowOfSays(row.route, hour, devs, acts);
      }
      CoversAll(stats, routeData, hour, devs, acts);
      routeData := map[];
      devs, acts := [], [];
    }

    method MaybeFlush(reference: int) returns (flushed: Option<seq<Row>>)
      requires Valid()
      modifies this
      ensures Valid() && currentHour == Some(Truncate(reference))
      ensures flushed.Some? <==> old(currentHour).Some? && old(currentHour).value != Truncate(reference)
      ensures flushed.None? ==> devs == old(devs) && acts == old(acts)
      ensures flushed.Some? ==> devs == [] && acts == [] && Summarises(flushed.value, old(currentHour).value, old(devs), old(acts))
    {
      var hour := Truncate(reference);
      if currentHour.None? {
        currentHour := Some(hour);
        return None;
      }
      if hour == currentHour.value {
        return None;
      }
      var stats := Flush(currentHour.value);
      currentHour := Some(hour);
      flushed := Some(stats);
    }

    method FlushRemaining() returns (flushed: Option<seq<Row>>)
      requires Valid()
      modifies this
      ensures Valid() && currentHour == old(currentHour)
      ensures flushed.Some? <==> old(currentHour).Some? && old(routeData) != map[]
      ensures flushed.None? ==> devs == old(devs) && acts == old(acts)
      ensures flushed.None? && old(currentHour).Some? ==> Summarises([], old(currentHour).value, devs, acts)
      ensures flushed.Some? ==> devs == [] && acts == [] && Summarises(flushed.value, old(currentHour).value, old(devs), old(acts))
    {
      if currentHour.None? || routeData == map[] {
        return None;
      }
      var stats := Flush(currentHour.value);
      flushed := Some(stats);
    }
  }

  /** A route with data has a deviation or a new incident to show for it. */
  lemma {:induction false} NotBlank(route: string, devs: seq<Deviation>, acts: seq<Bunching>)
    requires HasData(route, devs, acts)
    ensures |Own(devs, route)| > 0 || NewsOf(acts, route) > 0
  {
    if d :| d in devs && RouteOf(d) == route {
      OwnNotEmpty(devs, d);
    } else {
      var a :| a in acts && a.isNew && a.route == route;
      NewsNotNone(acts, a);
    }
  }

  lemma {:induction false} OwnNotEmpty(devs: seq<Deviation>, d: Deviation)
    requires d in devs
    ensures d in Own(devs, RouteOf(d))
  {
    var n := |devs| - 1;
    assert devs == devs[..n] + [devs[n]];
    if d != devs[n] {
      OwnNotEmpty(devs[..n], d);
    }
  }

  lemma {:induction false} NewsNotNone(acts: seq<Bunching>, a: Bunching)
    requires a in acts && a.isNew
    ensures NewsOf(acts, a.route) > 0
  {
    var n := |acts| - 1;
    assert acts == acts[..n] + [acts[n]];
    if a != acts[n] {
      NewsNotNone(acts[..n], a);
    }
  }
}

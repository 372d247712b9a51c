/** schedule_deviation.py's first arrivals and consumer.py's _DeviationResultTracker. */
module Arrivals {
  import opened Options
  import opened Pings
  import opened Tables
  import opened ServiceDay

  /** One vehicle's stop at one place of one trip. */
  datatype Visit = Visit(vehicle: int, trip: int, stopSequence: int)

  /** stop_times_lookup, and the agency's calendar. */
  datatype Timetable = Timetable(
    arrivals: map<(int, int), Option<int>>,      // (trip, stop sequence) -> arrival_time
    noon: int -> int,
    date: int -> int)

  datatype Result = Result(visit: Visit, scheduledAt: int, actualAt: int)

  function VisitOf(p: Ping): Visit {
    Visit(p.vehicle, p.trip, p.stopSequence)
  }

  /** A ping of a stopped vehicle at a known stop. */
  predicate IsArrival(p: Ping) {
    p.hasStop && p.stoppedAt
  }

  function Stopped(pings: seq<Ping>): seq<Ping> {
    if pings == [] then []
    else
      var n := |pings| - 1;
      Stopped(pings[..n]) + (if IsArrival(pings[n]) then [pings[n]] else [])
  }

  function TimeOf(p: Ping): real { p.time as real }

  predicate Visited(rows: seq<Ping>, v: Visit) {
    exists p :: p in rows && VisitOf(p) == v
  }

  /** groupby(visit).first() on the sorted rows. */
  function FirstPerVisit(rows: seq<Ping>): seq<Ping> {
    if rows == [] then []
    else
      var n := |rows| - 1;
      var kept := FirstPerVisit(rows[..n]);
      if Visited(kept, VisitOf(rows[n])) then kept else kept + [rows[n]]
  }

  /** collapse_to_first_arrival */
  function CollapseToFirstArrival(pings: seq<Ping>): seq<Ping> {
    FirstPerVisit(SortBy(Stopped(pings), TimeOf))
  }

  predicate IsScheduled(tt: Timetable, p: Ping) {
    (p.trip, p.stopSequence) in tt.arrivals && tt.arrivals[(p.trip, p.stopSequence)].Some?
  }

  function ResultOf(tt: Timetable, p: Ping): Result
    requires IsScheduled(tt, p)
  {
    Result(VisitOf(p), Resolved(tt.noon, tt.date(p.time), p.time, tt.arrivals[(p.trip, p.stopSequence)].value), p.time)
  }

  function Deviations(tt: Timetable, rows: seq<Ping>): seq<Result> {
    if rows == [] then []
    else
      var n := |rows| - 1;
      Deviations(tt, rows[..n]) + (if IsScheduled(tt, rows[n]) then [ResultOf(tt, rows[n])] else [])
  }

  predicate InGate(res: Result) {
    Away(res.scheduledAt, res.actualAt) <= GATE
  }

  /** The consumer's 30-minute gate. */
  function Gated(results: seq<Result>): seq<Result> {
    if results == [] then []
    else
      var n := |results| - 1;
      Gated(results[..n]) + (if InGate(results[n]) then [results[n]] else [])
  }

  function WindowResults(tt: Timetable, pings: seq<Ping>): seq<Result> {
    Gated(Deviations(tt, CollapseToFirstArrival(pings)))
  }

  // ----- the tracker

  type SeenVisits = map<Visit, int>

  datatype Filtered = Filtered(seen: SeenVisits, passed: seq<Result>)

  function FilterNew(seen: SeenVisits, results: seq<Result>): Filtered {
    if results == [] then Filtered(seen, [])
    else
      var before := FilterNew(seen, results[..|results|-1]);
      var res := results[|results|-1];
      if res.visit in before.seen then before
      else Filtered(before.seen[res.visit := res.actualAt], before.passed + [res])
  }

  function PurgeSeen(seen: SeenVisits, cutoff: int): SeenVisits {
    map v | v in seen && seen[v] >= cutoff :: seen[v]
  }

  class DeviationResultTracker {
    const retention: int
    var seen: SeenVisits

    constructor (retention: int)
      ensures this.retention == retention && seen == map[]
    {
      this.retention, seen := retention, map[];
    }

    method KeepNew(results: seq<Result>, reference: int) returns (passed: seq<Result>)
      modifies this
      ensures passed == FilterNew(old(seen), results).passed
      ensures forall v :: v in seen <==>
                v in FilterNew(old(seen), results).seen && FilterNew(old(seen), results).seen[v] >= reference - retention
      ensures forall v :: v in seen ==> seen[v] == FilterNew(old(seen), results).seen[v]
    {
      passed := [];
      var i := 0;
      while i < |results|
        invariant 0 <= i <= |results| && Filtered(seen, passed) == FilterNew(old(seen), results[..i])
      {
        assert results[..i + 1][..i] == results[..i];
        if results[i].visit !in seen {
          passed := passed + [results[i]];
          seen := seen[results[i].visit := results[i].actualAt];
        }
        i := i + 1;
      }
      assert results[..i] == results;
      var cutoff := reference - retention;
      seen := map v | v in seen && seen[v] >= cutoff :: seen[v];
    }
  }

  // ----- what a batch reports about one visit

  /** Another ping of the vehicle stopped at the same stop of the same trip. */
  ghost predicate StopsAlike(p: Ping, q: Ping) {
    q.hasStop && q.stoppedAt && q.vehicle == p.vehicle && q.trip == p.trip && q.stopSequence == p.stopSequence
  }

  /** The i-th ping is of a vehicle stopped at a stop, and no ping of that visit is earlier. */
  ghost predicate IsFirstArrival(pings: seq<Ping>, i: nat) {
    && i < |pings| && pings[i].hasStop && pings[i].stoppedAt
    && forall k :: 0 <= k < |pings| && StopsAlike(pings[i], pings[k]) ==> pings[i].time <= pings[k].time
  }

  /** The calendar is one, dates are its dates, and scheduled times lie within its reach of 35 h 30 min. */
  ghost predicate IsTimetable(tt: Timetable) {
    && IsCalendar(tt.noon)
    && (forall t :: OnDate(tt.noon, t, tt.date(t)))
    && (forall key :: key in tt.arrivals && tt.arrivals[key].Some? ==> 0 <= tt.arrivals[key].value <= 127_800_000)
  }

  /** The timetable has a time for the ping's stop on its trip. */
  ghost predicate HasTime(tt: Timetable, p: Ping, offset: int) {
    (p.trip, p.stopSequence) in tt.arrivals && tt.arrivals[(p.trip, p.stopSequence)] == Some(offset)
  }

  /** The result is about the ping's visit, and due at the scheduled time of the service day nearest to the ping. */
  ghost predicate Tells(tt: Timetable, p: Ping, res: Result) {
    && res.visit.vehicle == p.vehicle && res.visit.trip == p.trip && res.visit.stopSequence == p.stopSequence
    && res.actualAt == p.time
    && exists offset :: HasTime(tt, p, offset) && IsNearest(tt.noon, p.time, offset, res.scheduledAt)
  }

  /** On some service day at all the stop was due within 30 minutes of the ping. */
  ghost predicate IsDue(tt: Timetable, p: Ping) {
    exists offset, day :: HasTime(tt, p, offset) && Apart(tt.noon(day) - 43_200_000 + offset, p.time) <= 1_800_000
  }

  lemma ResultTells(tt: Timetable, p: Ping, res: Result)
    requires IsTimetable(tt) && IsScheduled(tt, p)
    ensures Tells(tt, p, ResultOf(tt, p))
    ensures Tells(tt, p, res) && Apart(res.scheduledAt, res.actualAt) <= 1_800_000 ==> res == ResultOf(tt, p) && InGate(res)
    ensures InGate(res) <==> Apart(res.scheduledAt, res.actualAt) <= 1_800_000
  {
    var offset := tt.arrivals[(p.trip, p.stopSequence)].value;
    assert HasTime(tt, p, offset);
    ResolvedIsIt(tt.noon, tt.date(p.time), p.time, offset, res.scheduledAt);
  }

  lemma DueIsInGate(tt: Timetable, p: Ping)
    requires IsTimetable(tt)
    ensures IsDue(tt, p) <==> IsScheduled(tt, p) && InGate(ResultOf(tt, p))
  {
    if IsScheduled(tt, p) {
      var offset := tt.arrivals[(p.trip, p.stopSequence)].value;
      assert HasTime(tt, p, offset);
      GatePassesIff(tt.noon, tt.date(p.time), p.time, offset);
      if InGate(ResultOf(tt, p)) {
        var day :| Away(Candidate(tt.noon, day, offset), p.time) <= 1_800_000;
        assert Apart(tt.noon(day) - 43_200_000 + offset, p.time) <= 1_800_000;
      }
      if o, day :| HasTime(tt, p, o) && Apart(tt.noon(day) - 43_200_000 + o, p.time) <= 1_800_000 {
        assert Away(Candidate(tt.noon, day, offset), p.time) <= 1_800_000;
      }
    }
  }

  lemma {:induction false} StoppedHolds(pings: seq<Ping>, p: Ping)
    ensures p in Stopped(pings) <==> p in pings && IsArrival(p)
  {
    if pings != [] {
      StoppedHolds(pings[..|pings|-1], p);
      assert pings == pings[..|pings|-1] + [pings[|pings|-1]];
    }
  }

  lemma {:induction false} FirstsHold(rows: seq<Ping>, p: Ping)
    ensures p in FirstPerVisit(rows) ==> p in rows
    ensures p in rows ==> Visited(FirstPerVisit(rows), VisitOf(p))
  {
    if rows != [] {
      var n := |rows| - 1;
      FirstsHold(rows[..n], p);
      assert rows == rows[..n] + [rows[n]];
      var kept := FirstPerVisit(rows[..n]);
      if p in rows && Visited(kept, VisitOf(p)) {
        var q :| q in kept && VisitOf(q) == VisitOf(p);
        assert q in FirstPerVisit(rows);
      } else if p in rows {
        assert p in FirstPerVisit(rows);
      }
    }
  }

  lemma {:induction false} FirstsAreEarliest(rows: seq<Ping>, p: Ping, q: Ping)
    requires AscendingBy(rows, TimeOf) && p in FirstPerVisit(rows) && q in rows && VisitOf(p) == VisitOf(q)
    ensures p.time <= q.time
  {
    if rows != [] {
      var n := |rows| - 1;
      assert rows == rows[..n] + [rows[n]];
      FirstsHold(rows[..n], p);
      FirstsHold(rows[..n], q);
      if p in FirstPerVisit(rows[..n]) && q in rows[..n] {
        FirstsAreEarliest(rows[..n], p, q);
      } else {
        assert TimeOf(rows[n]) == rows[n].time as real;
        var k :| 0 <= k < |rows| && rows[k] == p;
        assert TimeOf(rows[k]) <= TimeOf(rows[n]);
      }
    }
  }

  /** Collapsing keeps exactly the first arrival of each visit. */
  lemma CollapseIsFirst(pings: seq<Ping>, p: Ping)
    requires DistinctTimes(pings)
    ensures p in CollapseToFirstArrival(pings) <==> exists i: nat :: IsFirstArrival(pings, i) && pings[i] == p
  {
    var stopped := Stopped(pings);
    var sorted := SortBy(stopped, TimeOf);
    SortSorts(stopped, TimeOf);
    if p in CollapseToFirstArrival(pings) {
      FirstsHold(sorted, p);
      SortHolds(stopped, TimeOf, p);
      StoppedHolds(pings, p);
      var i: nat :| i < |pings| && pings[i] == p;
      forall k | 0 <= k < |pings| && IsArrival(pings[k]) && VisitOf(pings[k]) == VisitOf(p) ensures p.time <= pings[k].time {
        StoppedHolds(pings, pings[k]);
        SortHolds(stopped, TimeOf, pings[k]);
        FirstsAreEarliest(sorted, p, pings[k]);
      }
      assert IsFirstArrival(pings, i);
    }
    if i: nat :| IsFirstArrival(pings, i) && pings[i] == p {
      StoppedHolds(pings, p);
      SortHolds(stopped, TimeOf, p);
      FirstsHold(sorted, p);
      var q :| q in FirstPerVisit(sorted) && VisitOf(q) == VisitOf(p);
      FirstsAreEarliest(sorted, q, p);
      FirstsHold(sorted, q);
      SortHolds(stopped, TimeOf, q);
      StoppedHolds(pings, q);
      var k :| 0 <= k < |pings| && pings[k] == q;
      assert q.time == p.time;
    }
  }

  ghost predicate OneEach(rows: seq<Ping>) {
    forall i, j :: 0 <= i < j < |rows| ==> VisitOf(rows[i]) != VisitOf(rows[j])
  }

  lemma {:induction false} FirstsOneEach(rows: seq<Ping>)
    ensures OneEach(FirstPerVisit(rows))
  {
    if rows != [] {
      FirstsOneEach(rows[..|rows|-1]);
    }
  }

  /** No visit is reported twice in a batch. */
  ghost predicate OneResultEach(results: seq<Result>) {
    forall i, j :: 0 <= i < j < |results| ==> results[i].visit != results[j].visit
  }

  lemma {:induction false} DeviationsHold(tt: Timetable, rows: seq<Ping>, res: Result)
    ensures res in Deviations(tt, rows) <==> exists p :: p in rows && IsScheduled(tt, p) && ResultOf(tt, p) == res
  {
    if rows != [] {
      var n := |rows| - 1;
      DeviationsHold(tt, rows[..n], res);
      assert rows == rows[..n] + [rows[n]];
    }
  }

  lemma {:induction false} DeviationsOneEach(tt: Timetable, rows: seq<Ping>)
    requires OneEach(rows)
    ensures OneResultEach(Deviations(tt, rows))
  {
    if rows != [] {
      var n := |rows| - 1;
      DeviationsOneEach(tt, rows[..n]);
      var head := Deviations(tt, rows[..n]);
      forall k | 0 <= k < |head| ensures head[k].visit != VisitOf(rows[n]) {
        DeviationsHold(tt, rows[..n], head[k]);
        var p :| p in rows[..n] && IsScheduled(tt, p) && ResultOf(tt, p) == head[k];
        var m :| 0 <= m < n && rows[m] == p;
      }
    }
  }

  lemma {:induction false} GatedHolds(results: seq<Result>, res: Result)
    ensures res in Gated(results) <==> res in results && InGate(res)
  {
    if results != [] {
      var n := |results| - 1;
      GatedHolds(results[..n], res);
      assert results == results[..n] + [results[n]];
    }
  }

  lemma {:induction false} GatedOneEach(results: seq<Result>)
    requires OneResultEach(results)
    ensures OneResultEach(Gated(results))
  {
    if results != [] {
      var n := |results| - 1;
      GatedOneEach(results[..n]);
      var head := Gated(results[..n]);
      forall k | 0 <= k < |head| ensures head[k].visit != results[n].visit {
        GatedHolds(results[..n], head[k]);
        var m :| 0 <= m < n && results[m] == head[k];
      }
    }
  }

  lemma WindowHolds(tt: Timetable, pings: seq<Ping>, res: Result)
    requires DistinctTimes(pings)
    ensures OneResultEach(WindowResults(tt, pings))
    ensures res in WindowResults(tt, pings) <==>
            exists i: nat :: IsFirstArrival(pings, i) && IsScheduled(tt, pings[i]) && ResultOf(tt, pings[i]) == res && InGate(res)
  {
    var rows := CollapseToFirstArrival(pings);
    FirstsOneEach(SortBy(Stopped(pings), TimeOf));
    DeviationsOneEach(tt, rows);
    GatedOneEach(Deviations(tt, rows));
    GatedHolds(Deviations(tt, rows), res);
    DeviationsHold(tt, rows, res);
    if p :| p in rows && IsScheduled(tt, p) && ResultOf(tt, p) == res {
      CollapseIsFirst(pings, p);
    }
    if i: nat :| IsFirstArrival(pings, i) && IsScheduled(tt, pings[i]) && ResultOf(tt, pings[i]) == res {
      CollapseIsFirst(pings, pings[i]);
    }
  }

  /** The ping is the first arrival of its visit, and the result tells of it. */
  ghost predicate TellsFirst(tt: Timetable, pings: seq<Ping>, res: Result, i: nat) {
    IsFirstArrival(pings, i) && Tells(tt, pings[i], res)
  }

  /**
   A window reports each visit at most once; what it reports is exactly what tells of a first
   arrival, due on the service day nearest to it, within 30 minutes.
   */
  lemma WindowReports(tt: Timetable, pings: seq<Ping>, res: Result)
    requires IsTimetable(tt) && DistinctTimes(pings)
    ensures OneResultEach(WindowResults(tt, pings))
    ensures res in WindowResults(tt, pings)
            <==> Apart(res.scheduledAt, res.actualAt) <= 1_800_000 && exists i: nat :: TellsFirst(tt, pings, res, i)
  {
    WindowHolds(tt, pings, res);
    if res in WindowResults(tt, pings) {
      var i: nat :| IsFirstArrival(pings, i) && IsScheduled(tt, pings[i]) && ResultOf(tt, pings[i]) == res && InGate(res);
      ResultTells(tt, pings[i], res);
      assert TellsFirst(tt, pings, res, i);
    }
    if i: nat :| TellsFirst(tt, pings, res, i) && Apart(res.scheduledAt, res.actualAt) <= 1_800_000 {
      ResultTells(tt, pings[i], res);
    }
  }

  /** A first arrival is reported if and only if some service day's time for it is within 30 minutes. */
  lemma ReportedIffDue(tt: Timetable, pings: seq<Ping>, i: nat)
    requires IsTimetable(tt) && DistinctTimes(pings) && IsFirstArrival(pings, i)
    ensures IsDue(tt, pings[i]) <==> exists res :: res in WindowResults(tt, pings) && Tells(tt, pings[i], res)
  {
    var p := pings[i];
    DueIsInGate(tt, p);
    if IsDue(tt, p) {
      ResultTells(tt, p, ResultOf(tt, p));
      WindowHolds(tt, pings, ResultOf(tt, p));
    }
    if res :| res in WindowResults(tt, pings) && Tells(tt, p, res) {
      WindowReports(tt, pings, res);
      ResultTells(tt, p, res);
    }
  }

  /** Before the gate: every result tells of a first arrival, and every scheduled first arrival has one. */
  ghost predicate TellsAll(tt: Timetable, pings: seq<Ping>, results: seq<Result>) {
    && (forall res :: res in results ==> exists i: nat :: TellsFirst(tt, pings, res, i))
    && (forall i: nat, offset :: IsFirstArrival(pings, i) && HasTime(tt, pings[i], offset) ==>
          exists res :: res in results && Tells(tt, pings[i], res))
    && OneResultEach(results)
  }

  lemma DeviationsTellAll(tt: Timetable, pings: seq<Ping>)
    requires IsTimetable(tt) && DistinctTimes(pings)
    ensures TellsAll(tt, pings, Deviations(tt, CollapseToFirstArrival(pings)))
  {
    var rows := CollapseToFirstArrival(pings);
    var results := Deviations(tt, rows);
    FirstsOneEach(SortBy(Stopped(pings), TimeOf));
    DeviationsOneEach(tt, rows);
    forall res | res in results ensures exists i: nat :: TellsFirst(tt, pings, res, i) {
      DeviationsHold(tt, rows, res);
      var p :| p in rows && IsScheduled(tt, p) && ResultOf(tt, p) == res;
      CollapseIsFirst(pings, p);
      var i: nat :| IsFirstArrival(pings, i) && pings[i] == p;
      ResultTells(tt, p, res);
      assert TellsFirst(tt, pings, res, i);
    }
    forall i: nat, offset | IsFirstArrival(pings, i) && HasTime(tt, pings[i], offset)
      ensures exists res :: res in results && Tells(tt, pings[i], res)
    {
      CollapseIsFirst(pings, pings[i]);
      DeviationsHold(tt, rows, ResultOf(tt, pings[i]));
      ResultTells(tt, pings[i], ResultOf(tt, pings[i]));
    }
  }

  method ComputeArrivalDeviations(tt: Timetable, pings: seq<Ping>) returns (results: seq<Result>)
    ensures results == Deviations(tt, CollapseToFirstArrival(pings))
    ensures IsTimetable(tt) && DistinctTimes(pings) ==> TellsAll(tt, pings, results)
  {
    var firstArrivals := CollapseToFirstArrival(pings);
    results := [];
    var i := 0;
    while i < |firstArrivals|
      invariant 0 <= i <= |firstArrivals| && results == Deviations(tt, firstArrivals[..i])
    {
      var row := firstArrivals[i];
      assert firstArrivals[..i + 1][..i] == firstArrivals[..i];
      i := i + 1;
      var key := (row.trip, row.stopSequence);
      if key !in tt.arrivals || tt.arrivals[key].None? {
        continue;
      }
      var scheduled := Resolve(tt.noon, tt.date(row.time), row.time, tt.arrivals[key].value);
      results := results + [Result(VisitOf(row), scheduled, row.time)];
    }
    assert firstArrivals[..i] == firstArrivals;
    if IsTimetable(tt) && DistinctTimes(pings) {
      DeviationsTellAll(tt, pings);
    }
  }

  // ----- what the tracker lets through

  lemma {:induction false} FilterKeepsUnseen(seen: SeenVisits, results: seq<Result>, v: Visit)
    requires OneResultEach(results)
    ensures forall res :: res in FilterNew(seen, results).passed ==> res in results && res.visit !in seen
    ensures forall res :: res in results && res.visit !in seen ==> res in FilterNew(seen, results).passed
    ensures v in FilterNew(seen, results).seen <==> v in seen || exists res :: res in results && res.visit == v
    ensures v in seen ==> FilterNew(seen, results).seen[v] == seen[v]
    ensures forall res :: res in results && res.visit == v && v !in seen ==> FilterNew(seen, results).seen[v] == res.actualAt
  {
    if results != [] {
      var n := |results| - 1;
      FilterKeepsUnseen(seen, results[..n], v);
      FilterKeepsUnseen(seen, results[..n], results[n].visit);
      assert results == results[..n] + [results[n]];
    }
  }
}

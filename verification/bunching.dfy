/** bunching.py: find_close_pairs, as the chain of table expressions it is. */
module Bunching {
  import opened Options
  import opened Pings
  import opened Tables

  // Metres.
  const DISTANCE_THRESHOLD := 100.0

  /** The loaded schedule, as far as pairing reads it; the geometry is abstract. */
  datatype Static = Static(
    directions: map<int, int>,                   // trip -> direction
    nearTerminal: (Location, int) -> bool,       // _near_terminal for the terminals of a trip
    distance: (Location, Location) -> real)      // displacement_meters

  datatype Row = Row(vehicle: int, route: int, direction: int, time: int, bucket: int, location: Location, atTerminal: bool)

  datatype Candidate = Candidate(a: Row, b: Row)

  /** The identity of a pair of vehicles: the columns detection groups by. */
  datatype Key = Key(route: int, direction: int, a: int, b: int)

  datatype Pair = Pair(key: Key, bucket: int, distance: real)

  // ----- the table expressions

  predicate Usable(st: Static, p: Ping) {
    p.trip in st.directions && p.location.Some?
  }

  function RowOf(st: Static, p: Ping): Row
    requires Usable(st, p)
  {
    Row(p.vehicle, p.route, st.directions[p.trip], p.time, Bucket(p.time), p.location.value,
        st.nearTerminal(p.location.value, p.trip))
  }

  /** map direction, dropna. */
  function Kept(st: Static, pings: seq<Ping>): seq<Row> {
    if pings == [] then []
    else
      var n := |pings| - 1;
      Kept(st, pings[..n]) + (if Usable(st, pings[n]) then [RowOf(st, pings[n])] else [])
  }

  function TimeOf(r: Row): real { r.time as real }

  predicate SameSlot(x: Row, y: Row) {
    x.vehicle == y.vehicle && x.bucket == y.bucket
  }

  predicate Taken(rows: seq<Row>, r: Row) {
    exists x :: x in rows && SameSlot(x, r)
  }

  /** drop_duplicates on (vehicle, bucket), keep first. */
  function DropDuplicates(rows: seq<Row>): seq<Row> {
    if rows == [] then []
    else
      var n := |rows| - 1;
      var kept := DropDuplicates(rows[..n]);
      if Taken(kept, rows[n]) then kept else kept + [rows[n]]
  }

  /** Joined on bucket, route and direction; each unordered pair in one order only. */
  predicate Joins(x: Row, y: Row) {
    && x.bucket == y.bucket && x.route == y.route && x.direction == y.direction
    && x.vehicle < y.vehicle
  }

  function Partners(x: Row, rows: seq<Row>): seq<Candidate> {
    if rows == [] then []
    else
      var n := |rows| - 1;
      Partners(x, rows[..n]) + (if Joins(x, rows[n]) then [Candidate(x, rows[n])] else [])
  }

  /** The self-merge. */
  function Merge(left: seq<Row>, rows: seq<Row>): seq<Candidate> {
    if left == [] then []
    else Merge(left[..|left|-1], rows) + Partners(left[|left|-1], rows)
  }

  function PairOf(st: Static, c: Candidate): Pair {
    Pair(Key(c.a.route, c.a.direction, c.a.vehicle, c.b.vehicle), c.a.bucket,
         st.distance(c.a.location, c.b.location))
  }

  predicate IsClose(st: Static, c: Candidate) {
    PairOf(st, c).distance <= DISTANCE_THRESHOLD
  }

  predicate Staged(c: Candidate) {
    c.a.atTerminal && c.b.atTerminal
  }

  function Select(st: Static, cs: seq<Candidate>, keep: Candidate -> bool): seq<Pair> {
    if cs == [] then []
    else
      var n := |cs| - 1;
      Select(st, cs[..n], keep) + (if keep(cs[n]) then [PairOf(st, cs[n])] else [])
  }

  function Candidates(st: Static, pings: seq<Ping>): seq<Candidate> {
    var rows := DropDuplicates(SortBy(Kept(st, pings), TimeOf));
    Merge(rows, rows)
  }

  /** find_close_pairs: the close pairs, those staged at terminals left out. */
  function ClosePairs(st: Static, pings: seq<Ping>): seq<Pair> {
    Select(st, Candidates(st, pings), c => IsClose(st, c) && !Staged(c))
  }

  /** find_close_pairs: the pairs observed far apart. */
  function FarPairs(st: Static, pings: seq<Ping>): seq<Pair> {
    Select(st, Candidates(st, pings), c => !IsClose(st, c))
  }

  // ----- the nested-loop definition, in the fields of the pings

  /** Another ping of the vehicle in the same 15 seconds, on a known trip and with a position. */
  ghost predicate Rivals(st: Static, p: Ping, q: Ping) {
    && q.trip in st.directions && q.location.Some?
    && q.vehicle == p.vehicle && q.time / 15_000 == p.time / 15_000
  }

  /** Such a ping none of whose rivals is earlier. */
  ghost predicate IsFirst(st: Static, pings: seq<Ping>, i: nat) {
    && i < |pings| && pings[i].trip in st.directions && pings[i].location.Some?
    && forall k :: 0 <= k < |pings| && Rivals(st, pings[i], pings[k]) ==> pings[i].time <= pings[k].time
  }

  /** Two first pings of the same 15 seconds, route and direction, the smaller vehicle first. */
  ghost predicate Meet(st: Static, pings: seq<Ping>, i: nat, j: nat) {
    && IsFirst(st, pings, i) && IsFirst(st, pings, j)
    && pings[i].time / 15_000 == pings[j].time / 15_000 && pings[i].route == pings[j].route
    && st.directions[pings[i].trip] == st.directions[pings[j].trip]
    && pings[i].vehicle < pings[j].vehicle
  }

  /** The pair is that meeting. */
  ghost predicate MeetAs(st: Static, pings: seq<Ping>, p: Pair, i: nat, j: nat) {
    && Meet(st, pings, i, j)
    && p.key.route == pings[i].route && p.key.direction == st.directions[pings[i].trip]
    && p.key.a == pings[i].vehicle && p.key.b == pings[j].vehicle
    && p.bucket == pings[i].time / 15_000 * 15_000
    && p.distance == st.distance(pings[i].location.value, pings[j].location.value)
  }

  ghost predicate BothAtTerminal(st: Static, p: Ping, q: Ping)
    requires p.location.Some? && q.location.Some?
  {
    st.nearTerminal(p.location.value, p.trip) && st.nearTerminal(q.location.value, q.trip)
  }

  /** A meeting within 100 metres, not of two vehicles waiting at a terminal. */
  ghost predicate MeetClose(st: Static, pings: seq<Ping>, p: Pair, i: nat, j: nat) {
    MeetAs(st, pings, p, i, j) && p.distance <= 100.0 && !BothAtTerminal(st, pings[i], pings[j])
  }

  ghost predicate MeetFar(st: Static, pings: seq<Ping>, p: Pair, i: nat, j: nat) {
    MeetAs(st, pings, p, i, j) && p.distance > 100.0
  }

  function Both(st: Static, p: Ping, q: Ping): Candidate
    requires Usable(st, p) && Usable(st, q)
  {
    Candidate(RowOf(st, p), RowOf(st, q))
  }

  // ----- the chain computes it

  lemma {:induction false} KeptHolds(st: Static, pings: seq<Ping>, r: Row)
    ensures r in Kept(st, pings) <==> exists i :: 0 <= i < |pings| && Usable(st, pings[i]) && RowOf(st, pings[i]) == r
  {
    if pings != [] {
      var n := |pings| - 1;
      KeptHolds(st, pings[..n], r);
      if i :| 0 <= i < |pings| && Usable(st, pings[i]) && RowOf(st, pings[i]) == r {
        if i < n {
          assert pings[..n][i] == pings[i];
        }
      }
    }
  }

  /** One row a vehicle and bucket. */
  ghost predicate OneEach(rows: seq<Row>) {
    forall i, j :: 0 <= i < j < |rows| ==> !SameSlot(rows[i], rows[j])
  }

  lemma {:induction false} DedupKeepsOneEach(rows: seq<Row>)
    ensures OneEach(DropDuplicates(rows))
  {
    if rows != [] {
      DedupKeepsOneEach(rows[..|rows|-1]);
    }
  }

  lemma {:induction false} DedupKeeps(rows: seq<Row>, x: Row)
    ensures x in DropDuplicates(rows) ==> x in rows
    ensures x in rows ==> Taken(DropDuplicates(rows), x)
  {
    if rows != [] {
      var n := |rows| - 1;
      DedupKeeps(rows[..n], x);
      assert rows == rows[..n] + [rows[n]];
      var kept := DropDuplicates(rows[..n]);
      if x in rows && Taken(kept, x) {
        var y :| y in kept && SameSlot(y, x);
        assert y in DropDuplicates(rows);
      } else if x in rows {
        assert x in DropDuplicates(rows) && SameSlot(x, x);
      }
    }
  }

  lemma {:induction false} DedupKeepsEarliest(rows: seq<Row>, y: Row, x: Row)
    requires AscendingBy(rows, TimeOf) && y in DropDuplicates(rows) && x in rows && SameSlot(y, x)
    ensures y.time <= x.time
  {
    if rows != [] {
      var n := |rows| - 1;
      var kept := DropDuplicates(rows[..n]);
      assert rows == rows[..n] + [rows[n]];
      DedupKeeps(rows[..n], x);
      DedupKeeps(rows[..n], y);
      if y in kept && x in rows[..n] {
        DedupKeepsEarliest(rows[..n], y, x);
      }
    }
  }

  lemma KeptIsUnique(st: Static, pings: seq<Ping>, x: Row, y: Row)
    requires DistinctTimes(pings) && x in Kept(st, pings) && y in Kept(st, pings)
    requires x.vehicle == y.vehicle && x.time == y.time
    ensures x == y
  {
    KeptHolds(st, pings, x);
    KeptHolds(st, pings, y);
  }

  ghost function Firsts(st: Static, pings: seq<Ping>): seq<Row> {
    DropDuplicates(SortBy(Kept(st, pings), TimeOf))
  }

  lemma FirstsAreEarliest(st: Static, pings: seq<Ping>, y: Row, x: Row)
    requires y in Firsts(st, pings) && x in Kept(st, pings) && SameSlot(y, x)
    ensures y.time <= x.time
  {
    SortSorts(Kept(st, pings), TimeOf);
    SortHolds(Kept(st, pings), TimeOf, x);
    DedupKeepsEarliest(SortBy(Kept(st, pings), TimeOf), y, x);
  }

  lemma FirstsKeep(st: Static, pings: seq<Ping>, x: Row)
    ensures x in Firsts(st, pings) ==> x in Kept(st, pings)
    ensures x in Kept(st, pings) ==> Taken(Firsts(st, pings), x)
  {
    SortHolds(Kept(st, pings), TimeOf, x);
    DedupKeeps(SortBy(Kept(st, pings), TimeOf), x);
  }

  lemma RowIsFirst(st: Static, pings: seq<Ping>, r: Row) returns (i: nat)
    requires r in Firsts(st, pings)
    ensures IsFirst(st, pings, i) && RowOf(st, pings[i]) == r
  {
    FirstsKeep(st, pings, r);
    KeptHolds(st, pings, r);
    i :| 0 <= i < |pings| && Usable(st, pings[i]) && RowOf(st, pings[i]) == r;
    forall k | 0 <= k < |pings| && Rivals(st, pings[i], pings[k]) ensures pings[i].time <= pings[k].time {
      KeptHolds(st, pings, RowOf(st, pings[k]));
      FirstsAreEarliest(st, pings, r, RowOf(st, pings[k]));
    }
  }

  lemma FirstIsRow(st: Static, pings: seq<Ping>, i: nat)
    requires DistinctTimes(pings) && IsFirst(st, pings, i)
    ensures RowOf(st, pings[i]) in Firsts(st, pings)
  {
    var r := RowOf(st, pings[i]);
    KeptHolds(st, pings, r);
    FirstsKeep(st, pings, r);
    var y :| y in Firsts(st, pings) && SameSlot(y, r);
    FirstsAreEarliest(st, pings, y, r);
    var k := RowIsFirst(st, pings, y);
    FirstsKeep(st, pings, y);
    assert Rivals(st, pings[i], pings[k]);
    KeptIsUnique(st, pings, r, y);
  }

  lemma {:induction false} PartnersHolds(x: Row, rows: seq<Row>, c: Candidate)
    ensures c in Partners(x, rows) <==> c.a == x && c.b in rows && Joins(c.a, c.b)
  {
    if rows != [] {
      var n := |rows| - 1;
      PartnersHolds(x, rows[..n], c);
      assert rows == rows[..n] + [rows[n]];
    }
  }

  lemma {:induction false} MergeHolds(left: seq<Row>, rows: seq<Row>, c: Candidate)
    ensures c in Merge(left, rows) <==> c.a in left && c.b in rows && Joins(c.a, c.b)
  {
    if left != [] {
      var n := |left| - 1;
      MergeHolds(left[..n], rows, c);
      PartnersHolds(left[n], rows, c);
      assert left == left[..n] + [left[n]];
    }
  }

  lemma {:induction false} SelectHolds(st: Static, cs: seq<Candidate>, keep: Candidate -> bool, p: Pair)
    ensures p in Select(st, cs, keep) <==> exists c :: c in cs && keep(c) && PairOf(st, c) == p
  {
    if cs != [] {
      var n := |cs| - 1;
      SelectHolds(st, cs[..n], keep, p);
      assert cs == cs[..n] + [cs[n]];
    }
  }

  lemma CandidatesMeet(st: Static, pings: seq<Ping>, c: Candidate)
    requires DistinctTimes(pings)
    ensures c in Candidates(st, pings)
            <==> exists i: nat, j: nat :: Meet(st, pings, i, j) && Both(st, pings[i], pings[j]) == c
  {
    var rows := Firsts(st, pings);
    MergeHolds(rows, rows, c);
    if c in Candidates(st, pings) {
      var i := RowIsFirst(st, pings, c.a);
      var j := RowIsFirst(st, pings, c.b);
      MeetJoins(st, pings, i, j);
      assert Meet(st, pings, i, j);
    }
    if i: nat, j: nat :| Meet(st, pings, i, j) && Both(st, pings[i], pings[j]) == c {
      FirstIsRow(st, pings, i);
      FirstIsRow(st, pings, j);
      MeetJoins(st, pings, i, j);
    }
  }

  lemma MeetJoins(st: Static, pings: seq<Ping>, i: nat, j: nat)
    requires IsFirst(st, pings, i) && IsFirst(st, pings, j)
    ensures Meet(st, pings, i, j) <==> Joins(RowOf(st, pings[i]), RowOf(st, pings[j]))
  {
  }

  lemma MeetAsPair(st: Static, pings: seq<Ping>, p: Pair, i: nat, j: nat)
    requires Meet(st, pings, i, j)
    ensures var c := Both(st, pings[i], pings[j]);
            && (MeetAs(st, pings, p, i, j) <==> PairOf(st, c) == p)
            && (MeetClose(st, pings, p, i, j) <==> PairOf(st, c) == p && IsClose(st, c) && !Staged(c))
            && (MeetFar(st, pings, p, i, j) <==> PairOf(st, c) == p && !IsClose(st, c))
  {
  }

  /**
   The self-merge finds the close pairs of the nested loops over first pings and no others;
   what it reports far apart is every other meeting but the close ones of two staged vehicles.
   */
  lemma PairsAreNestedLoops(st: Static, pings: seq<Ping>, p: Pair)
    requires DistinctTimes(pings)
    ensures p in ClosePairs(st, pings) <==> exists i: nat, j: nat :: MeetClose(st, pings, p, i, j)
    ensures p in FarPairs(st, pings) <==> exists i: nat, j: nat :: MeetFar(st, pings, p, i, j)
  {
    var cs := Candidates(st, pings);
    SelectHolds(st, cs, c => IsClose(st, c) && !Staged(c), p);
    SelectHolds(st, cs, c => !IsClose(st, c), p);
    if c :| c in cs && PairOf(st, c) == p && IsClose(st, c) && !Staged(c) {
      var i, j := MeetingOf(st, pings, c);
      MeetAsPair(st, pings, p, i, j);
    }
    if c :| c in cs && PairOf(st, c) == p && !IsClose(st, c) {
      var i, j := MeetingOf(st, pings, c);
      MeetAsPair(st, pings, p, i, j);
    }
    if i: nat, j: nat :| MeetClose(st, pings, p, i, j) {
      CandidatesMeet(st, pings, Both(st, pings[i], pings[j]));
      MeetAsPair(st, pings, p, i, j);
    }
    if i: nat, j: nat :| MeetFar(st, pings, p, i, j) {
      CandidatesMeet(st, pings, Both(st, pings[i], pings[j]));
      MeetAsPair(st, pings, p, i, j);
    }
  }

  lemma MeetingOf(st: Static, pings: seq<Ping>, c: Candidate) returns (i: nat, j: nat)
    requires DistinctTimes(pings) && c in Candidates(st, pings)
    ensures Meet(st, pings, i, j) && Both(st, pings[i], pings[j]) == c
  {
    CandidatesMeet(st, pings, c);
    i, j :| Meet(st, pings, i, j) && Both(st, pings[i], pings[j]) == c;
  }

  // ----- each pair once a bucket

  /** No two rows report one pair of vehicles in one bucket. */
  ghost predicate Once(pairs: seq<Pair>) {
    forall i, j :: 0 <= i < j < |pairs| ==>
      !(pairs[i].key.a == pairs[j].key.a && pairs[i].key.b == pairs[j].key.b && pairs[i].bucket == pairs[j].bucket)
  }

  ghost predicate OnceEach(cs: seq<Candidate>) {
    forall i, j :: 0 <= i < j < |cs| ==> !(SameSlot(cs[i].a, cs[j].a) && SameSlot(cs[i].b, cs[j].b))
  }

  lemma {:induction false} PartnersOnce(x: Row, rows: seq<Row>)
    requires OneEach(rows)
    ensures OnceEach(Partners(x, rows))
  {
    if rows != [] {
      var n := |rows| - 1;
      PartnersOnce(x, rows[..n]);
      var head := Partners(x, rows[..n]);
      forall k | 0 <= k < |head| ensures !SameSlot(head[k].b, rows[n]) {
        PartnersHolds(x, rows[..n], head[k]);
      }
    }
  }

  lemma {:induction false} MergeOnce(left: seq<Row>, rows: seq<Row>)
    requires OneEach(left) && OneEach(rows)
    ensures OnceEach(Merge(left, rows))
  {
    if left != [] {
      var n := |left| - 1;
      MergeOnce(left[..n], rows);
      PartnersOnce(left[n], rows);
      var head, tail := Merge(left[..n], rows), Partners(left[n], rows);
      forall k, m | 0 <= k < |head| && 0 <= m < |tail| ensures !SameSlot(head[k].a, tail[m].a) {
        MergeHolds(left[..n], rows, head[k]);
        PartnersHolds(left[n], rows, tail[m]);
      }
    }
  }

  lemma {:induction false} SelectOnce(st: Static, cs: seq<Candidate>, keep: Candidate -> bool)
    requires OnceEach(cs) && forall c :: c in cs ==> Joins(c.a, c.b)
    ensures Once(Select(st, cs, keep))
  {
    if cs != [] {
      var n := |cs| - 1;
      SelectOnce(st, cs[..n], keep);
      var head := Select(st, cs[..n], keep);
      forall k | 0 <= k < |head|
        ensures !(head[k].key.a == PairOf(st, cs[n]).key.a && head[k].key.b == PairOf(st, cs[n]).key.b
                  && head[k].bucket == PairOf(st, cs[n]).bucket)
      {
        SelectHolds(st, cs[..n], keep, head[k]);
        var c :| c in cs[..n] && keep(c) && PairOf(st, c) == head[k];
        var m :| 0 <= m < n && cs[m] == c;
        assert cs[n] in cs && Joins(cs[n].a, cs[n].b);
      }
    }
  }

  /** Every unordered pair of vehicles at most once a bucket, never a vehicle with itself. */
  lemma PairsOncePerBucket(st: Static, pings: seq<Ping>)
    requires DistinctTimes(pings)
    ensures Once(ClosePairs(st, pings)) && Once(FarPairs(st, pings))
    ensures forall p :: p in ClosePairs(st, pings) + FarPairs(st, pings) ==> p.key.a < p.key.b
  {
    var rows := DropDuplicates(SortBy(Kept(st, pings), TimeOf));
    var cs := Merge(rows, rows);
    DedupKeepsOneEach(SortBy(Kept(st, pings), TimeOf));
    MergeOnce(rows, rows);
    forall c | c in cs ensures Joins(c.a, c.b) {
      MergeHolds(rows, rows, c);
    }
    SelectOnce(st, cs, c => IsClose(st, c) && !Staged(c));
    SelectOnce(st, cs, c => !IsClose(st, c));
    forall p | p in ClosePairs(st, pings) + FarPairs(st, pings) ensures p.key.a < p.key.b {
      SelectHolds(st, cs, c => IsClose(st, c) && !Staged(c), p);
      SelectHolds(st, cs, c => !IsClose(st, c), p);
    }
  }

  /** Two meetings of one pair of vehicles in the same 15 seconds are one meeting. */
  lemma MeetIsUnique(st: Static, pings: seq<Ping>, i: nat, j: nat, k: nat, m: nat)
    requires DistinctTimes(pings) && Meet(st, pings, i, j) && Meet(st, pings, k, m)
    requires pings[i].vehicle == pings[k].vehicle && pings[j].vehicle == pings[m].vehicle
    requires pings[i].time / 15_000 == pings[k].time / 15_000
    ensures i == k && j == m
  {
  }

  /**
   Close and far never share a pair in a bucket, and a meeting in neither is exactly one
   within 100 metres with both vehicles at a terminal.
   */
  lemma CloseFarAndStaged(st: Static, pings: seq<Ping>, p: Pair, i: nat, j: nat)
    requires DistinctTimes(pings) && MeetAs(st, pings, p, i, j)
    ensures !(p in ClosePairs(st, pings) && p in FarPairs(st, pings))
    ensures p !in ClosePairs(st, pings) && p !in FarPairs(st, pings)
            <==> p.distance <= 100.0 && BothAtTerminal(st, pings[i], pings[j])
  {
    PairsAreNestedLoops(st, pings, p);
    if k: nat, m: nat :| MeetClose(st, pings, p, k, m) {
      MeetIsUnique(st, pings, i, j, k, m);
    }
    if p.distance <= 100.0 && !BothAtTerminal(st, pings[i], pings[j]) {
      assert MeetClose(st, pings, p, i, j);
    }
    if p.distance > 100.0 {
      assert MeetFar(st, pings, p, i, j);
    }
  }
}

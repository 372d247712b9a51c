/** main.py: the accumulate-flush order of every window, the retry buffer, and the shutdown flush. */
module HourlyRun {
  import opened Options
  import opened HourlyStats

  const RETRY_INTERVAL := 60

  /** The primary key of route_hourly_stats. */
  datatype Key = Key(route: string, hour: int)

  type Table = map<Key, Row>

  function KeyOf(row: Row): Key {
    Key(row.route, row.hour)
  }

  /** INSERT ... ON CONFLICT DO UPDATE of every row. */
  function Upserted(table: Table, rows: seq<Row>): Table {
    if rows == [] then table else Upserted(table, rows[..|rows|-1])[KeyOf(rows[|rows|-1]) := rows[|rows|-1]]
  }

  ghost predicate DistinctKeys(rows: seq<Row>) {
    forall i, j :: 0 <= i < j < |rows| ==> KeyOf(rows[i]) != KeyOf(rows[j])
  }

  lemma {:induction false} UpsertedJoins(table: Table, a: seq<Row>, b: seq<Row>)
    ensures Upserted(table, a + b) == Upserted(Upserted(table, a), b)
  {
    if b == [] {
      assert a + b == a;
    } else {
      assert (a + b)[..|a + b| - 1] == a + b[..|b|-1];
      UpsertedJoins(table, a, b[..|b|-1]);
    }
  }

  ghost predicate Names(rows: seq<Row>, key: Key) {
    exists i :: 0 <= i < |rows| && KeyOf(rows[i]) == key
  }

  /** The last row that names the key. */
  ghost predicate IsLast(rows: seq<Row>, key: Key, i: int) {
    0 <= i < |rows| && KeyOf(rows[i]) == key && forall j :: i < j < |rows| ==> KeyOf(rows[j]) != key
  }

  /** A key the rows name holds the last row of it; any other is as it was. */
  ghost predicate ReplacedAt(before: Table, after: Table, rows: seq<Row>, key: Key) {
    && (Names(rows, key) ==> key in after && exists i :: IsLast(rows, key, i) && after[key] == rows[i])
    && (!Names(rows, key) ==> (key in after <==> key in before) && (key in before ==> after[key] == before[key]))
  }

  ghost predicate Replaces(before: Table, after: Table, rows: seq<Row>) {
    forall key :: ReplacedAt(before, after, rows, key)
  }

  lemma ReplacedStep(before: Table, after: Table, rows: seq<Row>, key: Key)
    requires rows != [] && ReplacedAt(before, after, rows[..|rows| - 1], key)
    ensures ReplacedAt(before, after[KeyOf(rows[|rows| - 1]) := rows[|rows| - 1]], rows, key)
  {
    var n := |rows| - 1;
    assert forall i :: 0 <= i < n ==> rows[..n][i] == rows[i];
    if KeyOf(rows[n]) == key {
      assert IsLast(rows, key, n);
    } else if Names(rows, key) {
      var i :| 0 <= i < |rows| && KeyOf(rows[i]) == key;
      assert KeyOf(rows[..n][i]) == key;
      var last :| IsLast(rows[..n], key, last) && after[key] == rows[..n][last];
      assert IsLast(rows, key, last);
    } else {
      NotNamed(rows, n, key);
    }
  }

  lemma NotNamed(rows: seq<Row>, n: nat, key: Key)
    requires n <= |rows| && !Names(rows, key)
    ensures !Names(rows[..n], key)
  {
    assert forall i :: 0 <= i < n ==> rows[..n][i] == rows[i];
  }

  lemma {:induction false} UpsertedAt(table: Table, rows: seq<Row>, key: Key)
    ensures ReplacedAt(table, Upserted(table, rows), rows, key)
  {
    if rows != [] {
      UpsertedAt(table, rows[..|rows| - 1], key);
      ReplacedStep(table, Upserted(table, rows[..|rows| - 1]), rows, key);
    }
  }

  lemma ReplacedAgrees(before: Table, after: Table, other: Table, rows: seq<Row>, key: Key)
    requires ReplacedAt(before, after, rows, key) && ReplacedAt(before, other, rows, key)
    ensures key in after <==> key in other
    ensures key in after ==> after[key] == other[key]
  {
    if Names(rows, key) {
      var i :| IsLast(rows, key, i) && after[key] == rows[i];
      var j :| IsLast(rows, key, j) && other[key] == rows[j];
      assert i == j;
    }
  }

  /** The upserts leave exactly one table: the one in which every named key holds its last row. */
  lemma UpsertedIff(before: Table, after: Table, rows: seq<Row>)
    ensures after == Upserted(before, rows) <==> Replaces(before, after, rows)
  {
    forall key ensures ReplacedAt(before, Upserted(before, rows), rows, key) {
      UpsertedAt(before, rows, key);
    }
    if Replaces(before, after, rows) {
      forall key
        ensures key in after <==> key in Upserted(before, rows)
        ensures key in after ==> after[key] == Upserted(before, rows)[key]
      {
        ReplacedAgrees(before, after, Upserted(before, rows), rows, key);
      }
      assert after == Upserted(before, rows);
    }
  }

  /** Writing what was pending leaves everything ever flushed in the table. */
  lemma PendingIsWritten(base: Table, before: Table, after: Table, flushed: seq<Row>, pending: seq<Row>)
    requires |pending| <= |flushed| && pending == flushed[|flushed| - |pending|..]
    requires before == Upserted(base, flushed[..|flushed| - |pending|]) && Replaces(before, after, pending)
    ensures after == Upserted(base, flushed)
  {
    UpsertedIff(before, after, pending);
    UpsertedJoins(base, flushed[..|flushed| - |pending|], pending);
    assert flushed == flushed[..|flushed| - |pending|] + pending;
  }

  /** With distinct keys the table agrees with the rows on all their keys, and is untouched elsewhere. */
  lemma UpsertedAgrees(table: Table, rows: seq<Row>)
    requires DistinctKeys(rows)
    ensures forall i :: 0 <= i < |rows| ==> KeyOf(rows[i]) in Upserted(table, rows) && Upserted(table, rows)[KeyOf(rows[i])] == rows[i]
    ensures forall key :: (forall i :: 0 <= i < |rows| ==> KeyOf(rows[i]) != key) ==>
              (key in Upserted(table, rows) <==> key in table) && (key in table ==> Upserted(table, rows)[key] == table[key])
  {
    forall i | 0 <= i < |rows|
      ensures KeyOf(rows[i]) in Upserted(table, rows) && Upserted(table, rows)[KeyOf(rows[i])] == rows[i]
    {
      RowIsStored(table, rows, i);
    }
    forall key | forall i :: 0 <= i < |rows| ==> KeyOf(rows[i]) != key
      ensures (key in Upserted(table, rows) <==> key in table) && (key in table ==> Upserted(table, rows)[key] == table[key])
    {
      UpsertedAt(table, rows, key);
    }
  }

  lemma RowIsStored(table: Table, rows: seq<Row>, i: nat)
    requires DistinctKeys(rows) && i < |rows|
    ensures KeyOf(rows[i]) in Upserted(table, rows) && Upserted(table, rows)[KeyOf(rows[i])] == rows[i]
  {
    UpsertedAt(table, rows, KeyOf(rows[i]));
    var last :| IsLast(rows, KeyOf(rows[i]), last) && Upserted(table, rows)[KeyOf(rows[i])] == rows[last];
    assert last == i;
  }

  /** The buffer of flushed rows and the table it is written to; attempts succeed or fail as they will. */
  class RetryBuffer {
    var pending: seq<Row>
    var nextRetryAt: int
    var table: Table
    ghost var flushed: seq<Row>        // every row ever handed over
    ghost const base: Table            // the table as it was at the start

    /** No row is lost: what is not pending is in the table, in the order it was flushed. */
    ghost predicate Valid()
      reads this
    {
      && |pending| <= |flushed| && pending == flushed[|flushed| - |pending|..]
      && table == Upserted(base, flushed[..|flushed| - |pending|])
    }

    constructor (table: Table)
      ensures Valid() && pending == [] && flushed == [] && base == table
    {
      pending, nextRetryAt, flushed := [], 0, [];
      this.table, base := table, table;
    }

    /** upsert_hourly_stats: all rows or none, and the return value tells which. */
    method UpsertHourlyStats(rows: seq<Row>, succeeds: bool) returns (written: nat)
      modifies this`table
      ensures if succeeds then written == |rows| && Replaces(old(table), table, rows)
              else written == 0 && table == old(table)
    {
      if rows == [] || !succeeds {
        return 0;
      }
      UpsertedIff(table, Upserted(table, rows), rows);
      table := Upserted(table, rows);
      written := |rows|;
    }

    /** flush_pending_pg_rows: True when nothing is pending any more. */
    method FlushPending(force: bool, now: int, succeeds: bool) returns (done: bool)
      requires Valid()
      modifies this`pending, this`nextRetryAt, this`table
      ensures Valid() && (done <==> pending == [])
      ensures pending == if succeeds && (force || now >= old(nextRetryAt)) then [] else old(pending)
      ensures nextRetryAt == if old(pending) == [] || (!force && now < old(nextRetryAt)) then old(nextRetryAt)
                             else if succeeds then 0 else now + 60
    {
      if pending == [] {
        return true;
      }
      if !force && now < nextRetryAt {
        return false;
      }
      ghost var before := table;
      var written := UpsertHourlyStats(pending, succeeds);
      if written == |pending| {
        PendingIsWritten(base, before, table, flushed, pending);
        pending := [];
        assert flushed[..|flushed|] == flushed;
        nextRetryAt := 0;
        return true;
      }
      nextRetryAt := now + RETRY_INTERVAL;
      return false;
    }

    /** pg_upsert */
    method PgUpsert(rows: seq<Row>, now: int, succeeds: bool)
      requires Valid()
      modifies this
      ensures Valid() && flushed == old(flushed) + rows
      ensures pending == if succeeds then [] else old(pending) + rows
      ensures old(pending) + rows != [] ==> nextRetryAt == if succeeds then 0 else now + 60
    {
      pending, flushed := pending + rows, flushed + rows;
      assert flushed[..|flushed| - |pending|] == old(flushed)[..|old(flushed)| - |old(pending)|];
      var done := FlushPending(true, now, succeeds);
    }
  }

  // ----- a run of windows

  /** One call of on_window_result: its clock, its timer, and whether an upsert would succeed. */
  datatype Tick = Tick(result: WindowResult, clock: int, now: int, succeeds: bool)

  ghost predicate ClockForward(ticks: seq<Tick>) {
    forall i, j :: 0 <= i < j < |ticks| ==> ticks[i].clock <= ticks[j].clock
  }

  /** The hour a window's data is counted under: that of the clock when the window before it ended. */
  function HourAt(ticks: seq<Tick>, i: nat): int
    requires i < |ticks|
  {
    Truncate(ticks[if i == 0 then 0 else i - 1].clock)
  }

  /** All deviations of the first n windows that count under an hour. */
  function DevsIn(ticks: seq<Tick>, n: nat, hour: int): seq<Deviation>
    requires n <= |ticks|
  {
    if n == 0 then []
    else DevsIn(ticks, n - 1, hour) + (if HourAt(ticks, n - 1) == hour then ticks[n - 1].result.deviations else [])
  }

  function ActsIn(ticks: seq<Tick>, n: nat, hour: int): seq<Bunching>
    requires n <= |ticks|
  {
    if n == 0 then []
    else ActsIn(ticks, n - 1, hour) + (if HourAt(ticks, n - 1) == hour then ticks[n - 1].result.actions else [])
  }

  ghost predicate HourHasData(ticks: seq<Tick>, n: nat, key: Key)
    requires n <= |ticks|
  {
    HasData(key.route, DevsIn(ticks, n, key.hour), ActsIn(ticks, n, key.hour))
  }

  ghost function HourRow(ticks: seq<Tick>, n: nat, key: Key): Row
    requires n <= |ticks|
  {
    RowOf(key.route, key.hour, DevsIn(ticks, n, key.hour), ActsIn(ticks, n, key.hour))
  }

  /** The rows group everything of the first n windows that counts under an hour before the limit. */
  ghost predicate Groups(rows: seq<Row>, ticks: seq<Tick>, n: nat, limit: int)
    requires n <= |ticks|
  {
    && DistinctKeys(rows)
    && (forall i :: 0 <= i < |rows| ==>
          rows[i].hour < limit && HourHasData(ticks, n, KeyOf(rows[i])) && rows[i] == HourRow(ticks, n, KeyOf(rows[i])))
    && (forall key: Key :: key.hour < limit && HourHasData(ticks, n, key) ==> exists i :: 0 <= i < |rows| && KeyOf(rows[i]) == key)
  }

  lemma TruncateMonotone(a: int, b: int)
    requires a <= b
    ensures Truncate(a) <= Truncate(b)
  {
  }

  lemma HoursForward(ticks: seq<Tick>, i: nat, j: nat)
    requires ClockForward(ticks) && i <= j < |ticks|
    ensures HourAt(ticks, i) <= Truncate(ticks[j].clock)
  {
    TruncateMonotone(ticks[if i == 0 then 0 else i - 1].clock, ticks[j].clock);
  }

  /** Nothing counts under an hour the clock has not reached. */
  lemma {:induction false} NothingAhead(ticks: seq<Tick>, n: nat, hour: int)
    requires n <= |ticks| && forall i :: 0 <= i < n ==> HourAt(ticks, i) < hour
    ensures DevsIn(ticks, n, hour) == [] && ActsIn(ticks, n, hour) == []
  {
    if n > 0 {
      NothingAhead(ticks, n - 1, hour);
    }
  }

  /** A window that counts under the limit or later leaves the groups before it as they are. */
  lemma GroupsStay(rows: seq<Row>, ticks: seq<Tick>, n: nat, limit: int)
    requires n < |ticks| && Groups(rows, ticks, n, limit) && HourAt(ticks, n) >= limit
    ensures Groups(rows, ticks, n + 1, limit)
  {
    forall key: Key | key.hour < limit
      ensures DevsIn(ticks, n + 1, key.hour) == DevsIn(ticks, n, key.hour)
      ensures ActsIn(ticks, n + 1, key.hour) == ActsIn(ticks, n, key.hour)
      ensures HourHasData(ticks, n + 1, key) <==> HourHasData(ticks, n, key)
      ensures HourRow(ticks, n + 1, key) == HourRow(ticks, n, key)
    {
    }
  }

  /** No data counts under an hour past this one. */
  ghost predicate NothingPast(ticks: seq<Tick>, n: nat, hour: int)
    requires n <= |ticks|
  {
    forall h :: h > hour ==> DevsIn(ticks, n, h) == [] && ActsIn(ticks, n, h) == []
  }

  lemma ClockBoundsData(ticks: seq<Tick>, n: nat, hour: int)
    requires n <= |ticks| && forall i :: 0 <= i < n ==> HourAt(ticks, i) <= hour
    ensures NothingPast(ticks, n, hour)
  {
    forall h | h > hour ensures DevsIn(ticks, n, h) == [] && ActsIn(ticks, n, h) == [] {
      NothingAhead(ticks, n, h);
    }
  }

  lemma NewRows(more: seq<Row>, ticks: seq<Tick>, n: nat, hour: int, i: nat)
    requires n <= |ticks| && i < |more| && Summarises(more, hour, DevsIn(ticks, n, hour), ActsIn(ticks, n, hour))
    ensures more[i].hour == hour && HourHasData(ticks, n, KeyOf(more[i])) && more[i] == HourRow(ticks, n, KeyOf(more[i]))
  {
    assert more[i] in more;
  }

  lemma FindNewRow(more: seq<Row>, hour: int, devs: seq<Deviation>, acts: seq<Bunching>, route: string) returns (k: nat)
    requires Summarises(more, hour, devs, acts) && HasData(route, devs, acts)
    ensures k < |more| && KeyOf(more[k]) == Key(route, hour)
  {
    var row :| row in more && row.route == route;
    k :| 0 <= k < |more| && more[k] == row;
  }

  lemma FindRow(rows: seq<Row>, more: seq<Row>, ticks: seq<Tick>, n: nat, hour: int, key: Key) returns (i: nat)
    requires n <= |ticks| && Groups(rows, ticks, n, hour) && key.hour <= hour && HourHasData(ticks, n, key)
    requires Summarises(more, hour, DevsIn(ticks, n, hour), ActsIn(ticks, n, hour))
    ensures i < |rows + more| && KeyOf((rows + more)[i]) == key
  {
    if key.hour < hour {
      i :| 0 <= i < |rows| && KeyOf(rows[i]) == key;
    } else {
      var k := FindNewRow(more, hour, DevsIn(ticks, n, hour), ActsIn(ticks, n, hour), key.route);
      i := |rows| + k;
    }
  }

  lemma KeysStayDistinct(rows: seq<Row>, more: seq<Row>, hour: int)
    requires DistinctKeys(rows) && (forall i :: 0 <= i < |rows| ==> rows[i].hour < hour)
    requires forall i, j :: 0 <= i < j < |more| ==> more[i].route != more[j].route
    requires forall i :: 0 <= i < |more| ==> more[i].hour == hour
    ensures DistinctKeys(rows + more)
  {
  }

  /** Flushing one hour more extends the groups past it. */
  lemma GroupsGrow(rows: seq<Row>, more: seq<Row>, ticks: seq<Tick>, n: nat, hour: int, limit: int)
    requires n <= |ticks| && Groups(rows, ticks, n, hour) && hour < limit
    requires Summarises(more, hour, DevsIn(ticks, n, hour), ActsIn(ticks, n, hour)) && NothingPast(ticks, n, hour)
    ensures Groups(rows + more, ticks, n, limit)
  {
    var all := rows + more;
    forall i | 0 <= i < |more| ensures more[i].hour == hour {
      NewRows(more, ticks, n, hour, i);
    }
    KeysStayDistinct(rows, more, hour);
    forall i | 0 <= i < |all| ensures all[i].hour < limit && HourHasData(ticks, n, KeyOf(all[i])) && all[i] == HourRow(ticks, n, KeyOf(all[i])) {
      if i >= |rows| {
        NewRows(more, ticks, n, hour, i - |rows|);
      }
    }
    forall key: Key | key.hour < limit && HourHasData(ticks, n, key) ensures exists i :: 0 <= i < |all| && KeyOf(all[i]) == key {
      var i := FindRow(rows, more, ticks, n, hour, key);
    }
  }

  /** After n windows: everything before the current hour is flushed, the current hour is in the accumulator. */
  ghost predicate InStep(ticks: seq<Tick>, n: nat, hour: Option<int>, devs: seq<Deviation>, acts: seq<Bunching>, flushed: seq<Row>)
    requires n <= |ticks|
  {
    if n == 0 then hour == None && devs == [] && acts == [] && flushed == []
    else
      && hour == Some(Truncate(ticks[n - 1].clock))
      && devs == DevsIn(ticks, n, hour.value) && acts == ActsIn(ticks, n, hour.value)
      && Groups(flushed, ticks, n, hour.value)
  }

  lemma FirstTick(ticks: seq<Tick>)
    requires |ticks| > 0
    ensures InStep(ticks, 1, Some(Truncate(ticks[0].clock)), ticks[0].result.deviations, ticks[0].result.actions, [])
  {
    var hour := Truncate(ticks[0].clock);
    assert DevsIn(ticks, 1, hour) == [] + ticks[0].result.deviations;
    assert ActsIn(ticks, 1, hour) == [] + ticks[0].result.actions;
    forall key: Key | key.hour < hour ensures !HourHasData(ticks, 1, key) {
      assert DevsIn(ticks, 0, key.hour) == [] && ActsIn(ticks, 0, key.hour) == [];
    }
  }

  lemma TickInHour(ticks: seq<Tick>, n: nat, hour: int, devs: seq<Deviation>, acts: seq<Bunching>, flushed: seq<Row>)
    requires 0 < n < |ticks| && InStep(ticks, n, Some(hour), devs, acts, flushed) && Truncate(ticks[n].clock) == hour
    ensures InStep(ticks, n + 1, Some(hour), devs + ticks[n].result.deviations, acts + ticks[n].result.actions, flushed)
  {
    GroupsStay(flushed, ticks, n, hour);
  }

  /** Up to a window nothing counts past the hour the clock showed before it. */
  lemma HoursUpTo(ticks: seq<Tick>, n: nat)
    requires ClockForward(ticks) && 0 < n <= |ticks|
    ensures NothingPast(ticks, n, Truncate(ticks[n - 1].clock))
    ensures n < |ticks| ==> NothingPast(ticks, n + 1, Truncate(ticks[n - 1].clock))
  {
    var hour := Truncate(ticks[n - 1].clock);
    forall i | 0 <= i < n ensures HourAt(ticks, i) <= hour {
      HoursForward(ticks, i, n - 1);
    }
    ClockBoundsData(ticks, n, hour);
    if n < |ticks| {
      assert HourAt(ticks, n) == hour;
      ClockBoundsData(ticks, n + 1, hour);
    }
  }

  lemma TickData(ticks: seq<Tick>, n: nat, hour: int)
    requires n < |ticks| && HourAt(ticks, n) == hour
    ensures DevsIn(ticks, n + 1, hour) == DevsIn(ticks, n, hour) + ticks[n].result.deviations
    ensures ActsIn(ticks, n + 1, hour) == ActsIn(ticks, n, hour) + ticks[n].result.actions
  {
  }

  lemma TickPastHour(ticks: seq<Tick>, n: nat, hour: int, devs: seq<Deviation>, acts: seq<Bunching>, flushed: seq<Row>, more: seq<Row>)
    requires ClockForward(ticks)
    requires 0 < n < |ticks| && InStep(ticks, n, Some(hour), devs, acts, flushed) && Truncate(ticks[n].clock) != hour
    requires Summarises(more, hour, devs + ticks[n].result.deviations, acts + ticks[n].result.actions)
    ensures InStep(ticks, n + 1, Some(Truncate(ticks[n].clock)), [], [], flushed + more)
  {
    TruncateMonotone(ticks[n - 1].clock, ticks[n].clock);
    GroupsStay(flushed, ticks, n, hour);
    TickData(ticks, n, hour);
    HoursUpTo(ticks, n);
    GroupsGrow(flushed, more, ticks, n + 1, hour, Truncate(ticks[n].clock));
    PastIsEmpty(ticks, n + 1, hour, Truncate(ticks[n].clock));
  }

  lemma PastIsEmpty(ticks: seq<Tick>, n: nat, hour: int, next: int)
    requires n <= |ticks| && NothingPast(ticks, n, hour) && next > hour
    ensures DevsIn(ticks, n, next) == [] && ActsIn(ticks, n, next) == []
  {
  }

  /** What one window does: its data is added under the current hour, which is flushed if the clock has moved past it. */
  ghost predicate Ticked(tick: Tick, hour: Option<int>, devs: seq<Deviation>, acts: seq<Bunching>, flushed: seq<Row>,
                         newHour: Option<int>, newDevs: seq<Deviation>, newActs: seq<Bunching>, newFlushed: seq<Row>,
                         stats: Option<seq<Row>>) {
    var d, a := devs + tick.result.deviations, acts + tick.result.actions;
    && newHour == Some(Truncate(tick.clock))
    && (stats.Some? <==> hour.Some? && hour.value != Truncate(tick.clock))
    && (stats.None? ==> newDevs == d && newActs == a && newFlushed == flushed)
    && (stats.Some? ==> newDevs == [] && newActs == [] && Summarises(stats.value, hour.value, d, a) && newFlushed == flushed + stats.value)
  }

  method TakeTick(acc: HourlyAccumulator, buffer: RetryBuffer, tick: Tick) returns (ghost stats: Option<seq<Row>>)
    requires acc.Valid() && buffer.Valid()
    modifies acc, buffer
    ensures acc.Valid() && buffer.Valid()
    ensures Ticked(tick, old(acc.currentHour), old(acc.devs), old(acc.acts), old(buffer.flushed),
                   acc.currentHour, acc.devs, acc.acts, buffer.flushed, stats)
  {
    acc.Accumulate(tick.result);
    var flushed := acc.MaybeFlush(tick.clock);
    if flushed.Some? && flushed.value != [] {
      buffer.PgUpsert(flushed.value, tick.now, tick.succeeds);
    } else {
      var done := buffer.FlushPending(false, tick.now, tick.succeeds);
      assert flushed.Some? ==> buffer.flushed + flushed.value == buffer.flushed;
    }
    stats := flushed;
  }

  lemma TickTaken(ticks: seq<Tick>, n: nat, hour: Option<int>, devs: seq<Deviation>, acts: seq<Bunching>, flushed: seq<Row>,
                  newHour: Option<int>, newDevs: seq<Deviation>, newActs: seq<Bunching>, newFlushed: seq<Row>,
                  stats: Option<seq<Row>>)
    requires ClockForward(ticks) && n < |ticks| && InStep(ticks, n, hour, devs, acts, flushed)
    requires Ticked(ticks[n], hour, devs, acts, flushed, newHour, newDevs, newActs, newFlushed, stats)
    ensures InStep(ticks, n + 1, newHour, newDevs, newActs, newFlushed)
  {
    if n == 0 {
      FirstTick(ticks);
      assert [] + ticks[0].result.deviations == ticks[0].result.deviations && [] + ticks[0].result.actions == ticks[0].result.actions;
    } else if stats.None? {
      TickInHour(ticks, n, hour.value, devs, acts, flushed);
    } else {
      TickPastHour(ticks, n, hour.value, devs, acts, flushed, stats.value);
    }
  }

  /** The accumulator and the buffer stand where the first n windows leave them. */
  ghost predicate Stands(acc: HourlyAccumulator, buffer: RetryBuffer, ticks: seq<Tick>, n: nat)
    requires n <= |ticks|
    reads acc, buffer
  {
    acc.Valid() && buffer.Valid() && InStep(ticks, n, acc.currentHour, acc.devs, acc.acts, buffer.flushed)
  }

  /** on_window_result, as far as the hourly statistics go. */
  method OnWindowResult(acc: HourlyAccumulator, buffer: RetryBuffer, tick: Tick, ghost ticks: seq<Tick>, ghost n: nat)
    requires ClockForward(ticks) && n < |ticks| && tick == ticks[n]
    requires Stands(acc, buffer, ticks, n)
    modifies acc, buffer
    ensures Stands(acc, buffer, ticks, n + 1)
  {
    ghost var hour, devs, acts, flushed := acc.currentHour, acc.devs, acc.acts, buffer.flushed;
    ghost var stats := TakeTick(acc, buffer, tick);
    TickTaken(ticks, n, hour, devs, acts, flushed, acc.currentHour, acc.devs, acc.acts, buffer.flushed, stats);
  }

  /** Everything of the run is in exactly one row, under the hour it counts for. */
  ghost predicate GroupsAll(rows: seq<Row>, ticks: seq<Tick>) {
    && DistinctKeys(rows)
    && (forall i :: 0 <= i < |rows| ==>
          HourHasData(ticks, |ticks|, KeyOf(rows[i])) && rows[i] == HourRow(ticks, |ticks|, KeyOf(rows[i])))
    && (forall key :: HourHasData(ticks, |ticks|, key) ==> exists i :: 0 <= i < |rows| && KeyOf(rows[i]) == key)
  }

  lemma DataNotPast(ticks: seq<Tick>, n: nat, hour: int, key: Key)
    requires n <= |ticks| && NothingPast(ticks, n, hour) && HourHasData(ticks, n, key)
    ensures key.hour <= hour
  {
  }

  lemma GroupsEnd(ticks: seq<Tick>, rows: seq<Row>, hour: int)
    requires Groups(rows, ticks, |ticks|, hour + 1) && NothingPast(ticks, |ticks|, hour)
    ensures GroupsAll(rows, ticks)
  {
    forall key: Key | HourHasData(ticks, |ticks|, key) ensures key.hour < hour + 1 {
      DataNotPast(ticks, |ticks|, hour, key);
    }
  }

  /** With the rows of the last hour nothing is left out. */
  lemma NothingLeft(ticks: seq<Tick>, hour: Option<int>, devs: seq<Deviation>, acts: seq<Bunching>, flushed: seq<Row>, more: seq<Row>)
    requires ClockForward(ticks) && InStep(ticks, |ticks|, hour, devs, acts, flushed)
    requires if hour.Some? then Summarises(more, hour.value, devs, acts) else more == []
    ensures GroupsAll(flushed + more, ticks)
  {
    var n := |ticks|;
    if n == 0 {
      assert flushed + more == [];
    } else {
      HoursUpTo(ticks, n);
      GroupsGrow(flushed, more, ticks, n, hour.value, hour.value + 1);
      GroupsEnd(ticks, flushed + more, hour.value);
    }
  }

  /** The buffer's part of the finally block: one forced attempt, and one more if that failed. */
  method LastAttempts(buffer: RetryBuffer, stats: Option<seq<Row>>, now: int, first: bool, second: bool)
    requires buffer.Valid()
    modifies buffer
    ensures buffer.Valid() && buffer.flushed == old(buffer.flushed) + (if stats.Some? then stats.value else [])
    ensures first || second ==> buffer.pending == []
  {
    if stats.Some? && stats.value != [] {
      buffer.PgUpsert(stats.value, now, first);
    } else if buffer.pending != [] {
      var done := buffer.FlushPending(true, now, first);
    }
    if buffer.pending != [] {
      var done := buffer.FlushPending(true, now, second);
    }
  }

  /** The finally block of main: flush what is left, then try the buffer once or twice more. */
  method Shutdown(acc: HourlyAccumulator, buffer: RetryBuffer, now: int, first: bool, second: bool, ghost ticks: seq<Tick>)
    requires ClockForward(ticks) && Stands(acc, buffer, ticks, |ticks|)
    modifies acc, buffer
    ensures buffer.Valid() && GroupsAll(buffer.flushed, ticks)
    ensures first || second ==> buffer.pending == []
  {
    ghost var hour, devs, acts, flushed := acc.currentHour, acc.devs, acc.acts, buffer.flushed;
    var stats := acc.FlushRemaining();
    NothingLeft(ticks, hour, devs, acts, flushed, if stats.Some? then stats.value else []);
    LastAttempts(buffer, stats, now, first, second);
  }

  method RunWindows(acc: HourlyAccumulator, buffer: RetryBuffer, ticks: seq<Tick>)
    requires ClockForward(ticks) && Stands(acc, buffer, ticks, 0)
    modifies acc, buffer
    ensures Stands(acc, buffer, ticks, |ticks|)
  {
    for i := 0 to |ticks|
      invariant Stands(acc, buffer, ticks, i)
    {
      OnWindowResult(acc, buffer, ticks[i], ticks, i);
    }
  }

  /**
   A whole run, whatever upserts fail on the way: the rows flushed group every deviation
   and every new incident under exactly one route and hour, and each is in the table or
   still pending when the run ends; after one successful last attempt all are in the table.
   */
  method RunEngine(ticks: seq<Tick>, base: Table, end: int, first: bool, second: bool)
    returns (table: Table, dropped: seq<Row>, ghost rows: seq<Row>)
    requires ClockForward(ticks)
    ensures GroupsAll(rows, ticks)
    ensures |dropped| <= |rows| && dropped == rows[|rows| - |dropped|..]
    ensures table == Upserted(base, rows[..|rows| - |dropped|])
    ensures first || second ==> dropped == []
  {
    var acc := new HourlyAccumulator();
    var buffer := new RetryBuffer(base);
    RunWindows(acc, buffer, ticks);
    Shutdown(acc, buffer, end, first, second, ticks);
    table, dropped, rows := buffer.table, buffer.pending, buffer.flushed;
  }

  /** After a run whose last attempt succeeded the table is the grouping itself, and untouched elsewhere. */
  lemma TableIsGrouping(rows: seq<Row>, ticks: seq<Tick>, base: Table, key: Key)
    requires GroupsAll(rows, ticks)
    ensures var table := Upserted(base, rows);
            if HourHasData(ticks, |ticks|, key) then key in table && table[key] == HourRow(ticks, |ticks|, key)
            else (key in table <==> key in base) && (key in base ==> table[key] == base[key])
  {
    UpsertedAgrees(base, rows);
  }

  // ----- conservation

  /** Where every new incident of a window counts. */
  function NewKeys(acts: seq<Bunching>, hour: int): seq<Key> {
    if acts == [] then []
    else
      var a := acts[|acts|-1];
      NewKeys(acts[..|acts|-1], hour) + (if a.isNew then [Key(a.route, hour)] else [])
  }

  /** Where every deviation of a window counts. */
  function DevKeys(devs: seq<Deviation>, hour: int): seq<Key> {
    seq(|devs|, i requires 0 <= i < |devs| => Key(RouteOf(devs[i]), hour))
  }

  function AllNewKeys(ticks: seq<Tick>, n: nat): seq<Key>
    requires n <= |ticks|
  {
    if n == 0 then [] else AllNewKeys(ticks, n - 1) + NewKeys(ticks[n - 1].result.actions, HourAt(ticks, n - 1))
  }

  function AllDevKeys(ticks: seq<Tick>, n: nat): seq<Key>
    requires n <= |ticks|
  {
    if n == 0 then [] else AllDevKeys(ticks, n - 1) + DevKeys(ticks[n - 1].result.deviations, HourAt(ticks, n - 1))
  }

  lemma {:induction false} NewKeysCount(acts: seq<Bunching>, hour: int, key: Key)
    ensures multiset(NewKeys(acts, hour))[key] == if key.hour == hour then NewsOf(acts, key.route) else 0
  {
    if acts != [] {
      NewKeysCount(acts[..|acts|-1], hour, key);
    }
  }

  lemma {:induction false} NewsOfJoins(a: seq<Bunching>, b: seq<Bunching>, route: string)
    ensures NewsOf(a + b, route) == NewsOf(a, route) + NewsOf(b, route)
  {
    if b == [] {
      assert a + b == a;
    } else {
      assert (a + b)[..|a + b| - 1] == a + b[..|b|-1];
      NewsOfJoins(a, b[..|b|-1], route);
    }
  }

  lemma NewKeysStep(keys: seq<Key>, before: seq<Bunching>, acts: seq<Bunching>, hour: int, key: Key)
    requires multiset(keys)[key] == NewsOf(before, key.route)
    ensures multiset(keys + NewKeys(acts, hour))[key] == NewsOf(before + (if hour == key.hour then acts else []), key.route)
  {
    NewKeysCount(acts, hour, key);
    NewsOfJoins(before, if hour == key.hour then acts else [], key.route);
  }

  lemma {:induction false} AllNewKeysCount(ticks: seq<Tick>, n: nat, key: Key)
    requires n <= |ticks|
    ensures multiset(AllNewKeys(ticks, n))[key] == NewsOf(ActsIn(ticks, n, key.hour), key.route)
  {
    if n > 0 {
      AllNewKeysCount(ticks, n - 1, key);
      NewKeysStep(AllNewKeys(ticks, n - 1), ActsIn(ticks, n - 1, key.hour), ticks[n - 1].result.actions, HourAt(ticks, n - 1), key);
    }
  }

  lemma {:induction false} DevKeysCount(devs: seq<Deviation>, hour: int, key: Key)
    ensures multiset(DevKeys(devs, hour))[key] == if key.hour == hour then |Own(devs, key.route)| else 0
  {
    if devs == [] {
      assert DevKeys(devs, hour) == [];
    } else {
      DevKeysCount(devs[..|devs|-1], hour, key);
      assert DevKeys(devs, hour) == DevKeys(devs[..|devs|-1], hour) + [Key(RouteOf(devs[|devs|-1]), hour)];
    }
  }

  lemma {:induction false} OwnJoins(a: seq<Deviation>, b: seq<Deviation>, route: string)
    ensures Own(a + b, route) == Own(a, route) + Own(b, route)
  {
    if b == [] {
      assert a + b == a;
    } else {
      assert (a + b)[..|a + b| - 1] == a + b[..|b|-1];
      OwnJoins(a, b[..|b|-1], route);
    }
  }

  lemma DevKeysStep(keys: seq<Key>, before: seq<Deviation>, devs: seq<Deviation>, hour: int, key: Key)
    requires multiset(keys)[key] == |Own(before, key.route)|
    ensures multiset(keys + DevKeys(devs, hour))[key] == |Own(before + (if hour == key.hour then devs else []), key.route)|
  {
    DevKeysCount(devs, hour, key);
    OwnJoins(before, if hour == key.hour then devs else [], key.route);
  }

  lemma {:induction false} AllDevKeysCount(ticks: seq<Tick>, n: nat, key: Key)
    requires n <= |ticks|
    ensures multiset(AllDevKeys(ticks, n))[key] == |Own(DevsIn(ticks, n, key.hour), key.route)|
  {
    if n > 0 {
      AllDevKeysCount(ticks, n - 1, key);
      DevKeysStep(AllDevKeys(ticks, n - 1), DevsIn(ticks, n - 1, key.hour), ticks[n - 1].result.deviations, HourAt(ticks, n - 1), key);
    }
  }

  function SumOver(rows: seq<Row>, count: Row -> nat): nat {
    if rows == [] then 0 else SumOver(rows[..|rows|-1], count) + count(rows[|rows|-1])
  }

  /** Counting row by row counts everything once. */
  lemma {:induction false} SumIsAll(rows: seq<Row>, count: Row -> nat, keys: multiset<Key>)
    requires DistinctKeys(rows) && forall i :: 0 <= i < |rows| ==> count(rows[i]) == keys[KeyOf(rows[i])]
    requires forall key :: key in keys ==> exists i :: 0 <= i < |rows| && KeyOf(rows[i]) == key
    ensures SumOver(rows, count) == |keys|
  {
    if rows == [] {
      assert keys == multiset{};
    } else {
      var n := |rows| - 1;
      SumIsAll(rows[..n], count, keys[KeyOf(rows[n]) := 0]);
      assert keys == keys[KeyOf(rows[n]) := 0][KeyOf(rows[n]) := keys[KeyOf(rows[n])]];
    }
  }

  /** How many actions of the first n windows were new. */
  ghost function NewIncidents(ticks: seq<Tick>, n: nat): nat
    requires n <= |ticks|
  {
    if n == 0 then 0
    else
      NewIncidents(ticks, n - 1) + |NewPlaces(ticks[n - 1].result.actions)|
  }

  ghost function NewPlaces(acts: seq<Bunching>): set<int> {
    set j | 0 <= j < |acts| && acts[j].isNew
  }

  /** How many deviations the first n windows brought. */
  ghost function Observed(ticks: seq<Tick>, n: nat): nat
    requires n <= |ticks|
  {
    if n == 0 then 0 else Observed(ticks, n - 1) + |ticks[n - 1].result.deviations|
  }

  lemma {:induction false} CountNewKeys(acts: seq<Bunching>, hour: int)
    ensures |NewKeys(acts, hour)| == |NewPlaces(acts)|
  {
    if acts != [] {
      var n := |acts| - 1;
      CountNewKeys(acts[..n], hour);
      OnePlaceMore(acts);
    }
  }

  lemma OnePlaceMore(acts: seq<Bunching>)
    requires acts != []
    ensures var n := |acts| - 1; |NewPlaces(acts)| == |NewPlaces(acts[..n])| + (if acts[n].isNew then 1 else 0)
  {
    var n := |acts| - 1;
    assert NewPlaces(acts) == NewPlaces(acts[..n]) + (if acts[n].isNew then {n} else {});
  }

  lemma {:induction false} CountAll(ticks: seq<Tick>, n: nat)
    requires n <= |ticks|
    ensures |AllNewKeys(ticks, n)| == NewIncidents(ticks, n) && |AllDevKeys(ticks, n)| == Observed(ticks, n)
  {
    if n > 0 {
      CountAll(ticks, n - 1);
      assert |DevKeys(ticks[n - 1].result.deviations, HourAt(ticks, n - 1))| == |ticks[n - 1].result.deviations|;
      CountNewKeys(ticks[n - 1].result.actions, HourAt(ticks, n - 1));
    }
  }

  function Incidents(): Row -> nat {
    (row: Row) => row.bunchingEvents
  }

  /** Summed over all rows, bunching_events is the number of "new" actions of the run. */
  lemma IncidentsConserved(rows: seq<Row>, ticks: seq<Tick>)
    requires GroupsAll(rows, ticks)
    ensures SumOver(rows, Incidents()) == NewIncidents(ticks, |ticks|)
  {
    var keys := multiset(AllNewKeys(ticks, |ticks|));
    forall i | 0 <= i < |rows| ensures Incidents()(rows[i]) == keys[KeyOf(rows[i])] {
      AllNewKeysCount(ticks, |ticks|, KeyOf(rows[i]));
    }
    forall key | key in keys ensures exists i :: 0 <= i < |rows| && KeyOf(rows[i]) == key {
      AllNewKeysCount(ticks, |ticks|, key);
      NewsHaveData(ActsIn(ticks, |ticks|, key.hour), key.route);
      assert HourHasData(ticks, |ticks|, key);
    }
    SumIsAll(rows, Incidents(), keys);
    CountAll(ticks, |ticks|);
  }

  /** Every row of the run says of its route and hour what the deviations and new incidents of that hour amount to. */
  lemma EveryRowSays(rows: seq<Row>, ticks: seq<Tick>, i: nat)
    requires GroupsAll(rows, ticks) && i < |rows|
    ensures Says(rows[i], rows[i].hour, DevsIn(ticks, |ticks|, rows[i].hour), ActsIn(ticks, |ticks|, rows[i].hour))
  {
    RowOfSays(rows[i].route, rows[i].hour, DevsIn(ticks, |ticks|, rows[i].hour), ActsIn(ticks, |ticks|, rows[i].hour));
  }

  /** The number of deviations a row is over. */
  function Observations(ticks: seq<Tick>): Row -> nat {
    (row: Row) => |Own(DevsIn(ticks, |ticks|, row.hour), row.route)|
  }

  lemma RowIsOver(rows: seq<Row>, ticks: seq<Tick>, i: nat)
    requires i < |rows|
    ensures Observations(ticks)(rows[i]) == multiset(AllDevKeys(ticks, |ticks|))[KeyOf(rows[i])]
  {
    AllDevKeysCount(ticks, |ticks|, KeyOf(rows[i]));
  }

  lemma KeyHasRow(rows: seq<Row>, ticks: seq<Tick>, key: Key)
    requires GroupsAll(rows, ticks) && key in multiset(AllDevKeys(ticks, |ticks|))
    ensures exists i :: 0 <= i < |rows| && KeyOf(rows[i]) == key
  {
    AllDevKeysCount(ticks, |ticks|, key);
    OwnHasData(DevsIn(ticks, |ticks|, key.hour), key.route);
    assert HourHasData(ticks, |ticks|, key);
  }

  /** Every deviation of the run enters exactly one row. */
  lemma DeviationsConserved(rows: seq<Row>, ticks: seq<Tick>)
    requires GroupsAll(rows, ticks)
    ensures SumOver(rows, Observations(ticks)) == Observed(ticks, |ticks|)
  {
    var keys := multiset(AllDevKeys(ticks, |ticks|));
    forall i | 0 <= i < |rows| ensures Observations(ticks)(rows[i]) == keys[KeyOf(rows[i])] {
      RowIsOver(rows, ticks, i);
    }
    forall key | key in keys ensures exists i :: 0 <= i < |rows| && KeyOf(rows[i]) == key {
      KeyHasRow(rows, ticks, key);
    }
    SumIsAll(rows, Observations(ticks), keys);
    CountAll(ticks, |ticks|);
  }

  lemma NewsHaveData(acts: seq<Bunching>, route: string)
    requires NewsOf(acts, route) > 0
    ensures exists a :: a in acts && a.isNew && a.route == route
  {
    if !exists a :: a in acts && a.isNew && a.route == route {
      NoNews(acts, route);
    }
  }

  lemma OwnHasData(devs: seq<Deviation>, route: string)
    requires |Own(devs, route)| > 0
    ensures exists d :: d in devs && RouteOf(d) == route
  {
    if !exists d :: d in devs && RouteOf(d) == route {
      NoOwn(devs, route);
    }
  }
}

/** consumer.py: _BunchingEventTracker; writer.py: build_bunching_operations, as upserts into a keyed map. */
module BunchingTracker {
  import opened Pings
  import opened Bunching
  import opened BunchingEvents

  datatype Kind = New | Update

  datatype Action = Action(kind: Kind, event: Event)

  type Seen = map<Key, Event>

  datatype Reconciled = Reconciled(seen: Seen, actions: seq<Action>)

  predicate Continues(previous: Event, ev: Event) {
    ev.start <= previous.end + POLL
  }

  function Merged(previous: Event, ev: Event): Event {
    Event(ev.key,
          if previous.start <= ev.start then previous.start else ev.start,
          ev.end,
          ev.count,
          if previous.minDistance <= ev.minDistance then previous.minDistance else ev.minDistance)
  }

  /** One detected event against the tracked ones. */
  function Consider(seen: Seen, ev: Event): Reconciled {
    if ev.key !in seen then Reconciled(seen[ev.key := ev], [Action(New, ev)])
    else
      var previous := seen[ev.key];
      if Continues(previous, ev) && ev.end > previous.end then
        Reconciled(seen[ev.key := Merged(previous, ev)], [Action(Update, Merged(previous, ev))])
      else if !Continues(previous, ev) then Reconciled(seen[ev.key := ev], [Action(New, ev)])
      else Reconciled(seen, [])
  }

  function Reconcile(seen: Seen, events: seq<Event>): Reconciled {
    if events == [] then Reconciled(seen, [])
    else
      var before := Reconcile(seen, events[..|events|-1]);
      var last := Consider(before.seen, events[|events|-1]);
      Reconciled(last.seen, before.actions + last.actions)
  }

  lemma ReconcileStep(seen: Seen, events: seq<Event>, x: nat)
    requires 0 < x <= |events|
    ensures var before := Reconcile(seen, events[..x - 1]);
            var last := Consider(before.seen, events[x - 1]);
            Reconcile(seen, events[..x]) == Reconciled(last.seen, before.actions + last.actions)
  {
    assert events[..x][..x - 1] == events[..x - 1];
  }

  /** The action reports the event: its pair, its end, its count; from its start, or from an earlier one. */
  ghost predicate ReportsEvent(a: Action, ev: Event) {
    && a.event.key == ev.key && a.event.end == ev.end && a.event.count == ev.count
    && a.event.start <= ev.start && (a.kind.New? ==> a.event == ev)
  }

  ghost predicate ReportsOne(a: Action, events: seq<Event>) {
    exists ev :: ev in events && ReportsEvent(a, ev)
  }

  /** Every action reports one of the window's events. */
  lemma {:induction false} ActionsReport(seen: Seen, events: seq<Event>)
    ensures forall a :: a in Reconcile(seen, events).actions ==> ReportsOne(a, events)
  {
    if events != [] {
      var n := |events| - 1;
      ActionsReport(seen, events[..n]);
      var before := Reconcile(seen, events[..n]);
      forall a | a in Reconcile(seen, events).actions ensures ReportsOne(a, events) {
        if a in before.actions {
          var ev :| ev in events[..n] && ReportsEvent(a, ev);
          assert ev in events;
        } else {
          assert ReportsEvent(a, events[n]);
        }
      }
    }
  }

  /** _purge_stale */
  function Purge(seen: Seen, cutoff: int): Seen {
    map key | key in seen && seen[key].end >= cutoff :: seen[key]
  }

  class BunchingEventTracker {
    const retention: int
    var lastSeen: Seen

    constructor (retention: int)
      ensures this.retention == retention && lastSeen == map[]
    {
      this.retention, lastSeen := retention, map[];
    }

    /** What ended before the retention is forgotten, everything else is kept as it was. */
    method PurgeStale(reference: int)
      modifies this
      ensures forall key :: key in lastSeen <==> key in old(lastSeen) && old(lastSeen)[key].end >= reference - retention
      ensures forall key :: key in lastSeen ==> lastSeen[key] == old(lastSeen)[key]
    {
      var cutoff := reference - retention;
      lastSeen := map key | key in lastSeen && lastSeen[key].end >= cutoff :: lastSeen[key];
    }

    method ReconcileEvents(events: seq<Event>, reference: int) returns (actions: seq<Action>)
      modifies this
      ensures actions == Reconcile(old(lastSeen), events).actions
      ensures lastSeen == Purge(Reconcile(old(lastSeen), events).seen, reference - retention)
      ensures forall a :: a in actions ==> ReportsOne(a, events)
    {
      ActionsReport(lastSeen, events);
      actions := [];
      var i := 0;
      while i < |events|
        invariant 0 <= i <= |events|
        invariant Reconciled(lastSeen, actions) == Reconcile(old(lastSeen), events[..i])
      {
        var ev := events[i];
        assert events[..i + 1][..i] == events[..i];
        i := i + 1;
        if ev.key !in lastSeen {
          actions := actions + [Action(New, ev)];
          lastSeen := lastSeen[ev.key := ev];
          continue;
        }
        var previous := lastSeen[ev.key];
        var isContinuation := ev.start <= previous.end + POLL;
        if isContinuation && ev.end > previous.end {
          var updated := Merged(previous, ev);
          actions := actions + [Action(Update, updated)];
          lastSeen := lastSeen[ev.key := updated];
        } else if !isContinuation {
          actions := actions + [Action(New, ev)];
          lastSeen := lastSeen[ev.key := ev];
        }
      }
      assert events[..i] == events;
      ghost var before := lastSeen;
      PurgeStale(reference);
      assert lastSeen == Purge(before, reference - retention);
    }
  }

  // ----- what purging can change

  /** The one tracks what the other does, but for entries that ended before the cutoff. */
  ghost predicate Trims(trimmed: Seen, seen: Seen, cutoff: int) {
    && (forall key :: key in trimmed ==> key in seen && trimmed[key] == seen[key])
    && (forall key :: key in seen && key !in trimmed ==> seen[key].end < cutoff)
  }

  lemma ConsiderTrims(trimmed: Seen, seen: Seen, cutoff: int, ev: Event)
    requires Trims(trimmed, seen, cutoff) && ev.start >= cutoff + POLL
    ensures Trims(Consider(trimmed, ev).seen, Consider(seen, ev).seen, cutoff)
    ensures Consider(trimmed, ev).actions == Consider(seen, ev).actions
  {
  }

  /** Purging changes no decision on events that start a poll or more past the cutoff. */
  lemma {:induction false} PurgeIsUnnoticed(trimmed: Seen, seen: Seen, cutoff: int, events: seq<Event>)
    requires Trims(trimmed, seen, cutoff) && forall i :: 0 <= i < |events| ==> events[i].start >= cutoff + POLL
    ensures Trims(Reconcile(trimmed, events).seen, Reconcile(seen, events).seen, cutoff)
    ensures Reconcile(trimmed, events).actions == Reconcile(seen, events).actions
  {
    if events != [] {
      var n := |events| - 1;
      PurgeIsUnnoticed(trimmed, seen, cutoff, events[..n]);
      ConsiderTrims(Reconcile(trimmed, events[..n]).seen, Reconcile(seen, events[..n]).seen, cutoff, events[n]);
    }
  }

  /** And that is exact: an event that starts any earlier is decided otherwise for some tracked incident. */
  lemma PurgeIsUnnoticedIff(cutoff: int, ev: Event)
    ensures (forall seen: Seen :: Consider(Purge(seen, cutoff), ev).actions == Consider(seen, ev).actions)
            <==> ev.start >= cutoff + POLL
  {
    if ev.start >= cutoff + POLL {
      forall seen: Seen ensures Consider(Purge(seen, cutoff), ev).actions == Consider(seen, ev).actions {
        ConsiderTrims(Purge(seen, cutoff), seen, cutoff, ev);
      }
    } else {
      var previous := Event(ev.key, cutoff - 1, cutoff - 1, ev.count, ev.minDistance);
      var seen: Seen := map[ev.key := previous];
      assert ev.key !in Purge(seen, cutoff);
      assert Consider(Purge(seen, cutoff), ev).actions == [Action(New, ev)];
      assert Consider(seen, ev).actions == [] || Consider(seen, ev).actions[0].kind.Update?;
    }
  }

  // ----- what a log of actions keeps

  /** Later actions on a pair end later, and a new incident starts clear of everything before it. */
  ghost predicate Spaced(log: seq<Action>) {
    forall i, j :: 0 <= i < j < |log| && log[i].event.key == log[j].event.key ==>
      log[i].event.end < log[j].event.end
      && (log[j].kind.New? ==> log[j].event.start > log[i].event.end + POLL)
  }

  /** Everything reported about a pair is tracked, or ended before the floor. */
  ghost predicate Bounded(log: seq<Action>, seen: Seen, floor: int) {
    forall a :: a in log ==>
      a.event.start <= a.event.end
      && (if a.event.key in seen then a.event.end <= seen[a.event.key].end else a.event.end < floor)
  }

  lemma ConsiderSpaces(log: seq<Action>, seen: Seen, floor: int, ev: Event)
    requires Spaced(log) && Bounded(log, seen, floor) && ev.start <= ev.end && floor + POLL < ev.start
    ensures Spaced(log + Consider(seen, ev).actions) && Bounded(log + Consider(seen, ev).actions, Consider(seen, ev).seen, floor)
  {
    var r := Consider(seen, ev);
    forall i | 0 <= i < |log| && log[i].event.key == ev.key && r.actions != []
      ensures log[i].event.end < r.actions[0].event.end
      ensures r.actions[0].kind.New? ==> r.actions[0].event.start > log[i].event.end + POLL
    {
      assert log[i] in log;
    }
  }

  lemma {:induction false} ReconcileSpaces(log: seq<Action>, seen: Seen, floor: int, events: seq<Event>)
    requires Spaced(log) && Bounded(log, seen, floor)
    requires forall ev :: ev in events ==> ev.start <= ev.end && floor + POLL < ev.start
    ensures Spaced(log + Reconcile(seen, events).actions)
    ensures Bounded(log + Reconcile(seen, events).actions, Reconcile(seen, events).seen, floor)
  {
    if events == [] {
      assert log + [] == log;
    } else {
      var n := |events| - 1;
      ReconcileSpaces(log, seen, floor, events[..n]);
      var before := Reconcile(seen, events[..n]);
      ConsiderSpaces(log + before.actions, before.seen, floor, events[n]);
      assert (log + before.actions) + Consider(before.seen, events[n]).actions == log + Reconcile(seen, events).actions;
    }
  }

  ghost predicate AllClear(events: seq<Event>, floor: int) {
    forall ev :: ev in events ==> ev.start <= ev.end && floor + POLL < ev.start
  }

  /** A whole window keeps the spacing, if its events start late enough; the purge raises the floor. */
  lemma WindowSpaces(log: seq<Action>, seen: Seen, floor: int, events: seq<Event>, cutoff: int, more: seq<Action>, kept: Seen)
    requires Spaced(log) && Bounded(log, seen, floor) && floor <= cutoff && AllClear(events, floor)
    requires more == log + Reconcile(seen, events).actions && kept == Purge(Reconcile(seen, events).seen, cutoff)
    ensures Spaced(more) && Bounded(more, kept, cutoff)
  {
    ReconcileSpaces(log, seen, floor, events);
  }

  // ----- the store

  /** The natural key of a document. */
  datatype DocKey = DocKey(key: Key, start: int)

  datatype Doc = Doc(end: int, count: nat, minDistance: real, lastAction: Kind)

  datatype Operation = Operation(at: DocKey, doc: Doc)

  type Store = map<DocKey, Doc>

  function OperationOf(a: Action): Operation {
    Operation(DocKey(a.event.key, a.event.start), Doc(a.event.end, a.event.count, a.event.minDistance, a.kind))
  }

  /** The document of an incident: pair and start are its key, the rest is what the action says. */
  ghost predicate Writes(op: Operation, a: Action) {
    && op.at.key == a.event.key && op.at.start == a.event.start
    && Says(op.doc, a)
  }

  ghost predicate Says(doc: Doc, a: Action) {
    && doc.end == a.event.end && doc.count == a.event.count && doc.minDistance == a.event.minDistance
    && doc.lastAction == a.kind
  }

  method BuildBunchingOperations(actions: seq<Action>) returns (operations: seq<Operation>)
    ensures |operations| == |actions| && forall i :: 0 <= i < |actions| ==> Writes(operations[i], actions[i])
  {
    operations := [];
    for i := 0 to |actions|
      invariant |operations| == i && forall k :: 0 <= k < i ==> Writes(operations[k], actions[k])
    {
      operations := operations + [OperationOf(actions[i])];
    }
  }

  /** The upserts of a log of actions, in order. */
  function Persist(store: Store, log: seq<Action>): Store {
    if log == [] then store
    else
      var op := OperationOf(log[|log|-1]);
      Persist(store, log[..|log|-1])[op.at := op.doc]
  }

  /** bulk_write of the operations, in order. */
  function Upserts(store: Store, operations: seq<Operation>): Store {
    if operations == [] then store
    else
      var op := operations[|operations|-1];
      Upserts(store, operations[..|operations|-1])[op.at := op.doc]
  }

  lemma {:induction false} UpsertsPersist(store: Store, operations: seq<Operation>, actions: seq<Action>)
    requires |operations| == |actions| && forall i :: 0 <= i < |actions| ==> Writes(operations[i], actions[i])
    ensures Upserts(store, operations) == Persist(store, actions)
  {
    if actions != [] {
      UpsertsPersist(store, operations[..|operations|-1], actions[..|actions|-1]);
      assert Writes(operations[|operations|-1], actions[|actions|-1]);
    }
  }

  lemma {:induction false} PersistJoins(store: Store, a: seq<Action>, b: seq<Action>)
    ensures Persist(store, a + b) == Persist(Persist(store, a), b)
  {
    if b == [] {
      assert a + b == a;
    } else {
      assert (a + b)[..|a + b| - 1] == a + b[..|b|-1];
      PersistJoins(store, a, b[..|b|-1]);
    }
  }

  /** The last action on its pair with its start. */
  ghost predicate IsLast(log: seq<Action>, i: nat) {
    i < |log| && forall k :: i < k < |log| ==>
      !(log[k].event.key == log[i].event.key && log[k].event.start == log[i].event.start)
  }

  /** A document is what the last action on it said. */
  lemma {:induction false} LastIsStored(store: Store, log: seq<Action>, i: nat)
    requires IsLast(log, i)
    ensures var at := DocKey(log[i].event.key, log[i].event.start);
            at in Persist(store, log) && Says(Persist(store, log)[at], log[i])
  {
    var n := |log| - 1;
    if i < n {
      assert IsLast(log[..n], i);
      LastIsStored(store, log[..n], i);
    }
  }

  /** The other documents are as they were. */
  lemma {:induction false} StoredIsLast(store: Store, log: seq<Action>, at: DocKey)
    requires at in Persist(store, log)
    ensures || (at in store && Persist(store, log)[at] == store[at])
            || exists i: nat :: IsLast(log, i) && log[i].event.key == at.key && log[i].event.start == at.start
  {
    if log != [] {
      var n := |log| - 1;
      if DocKey(log[n].event.key, log[n].event.start) == at {
        assert IsLast(log, n);
      } else {
        StoredIsLast(store, log[..n], at);
        if i: nat :| IsLast(log[..n], i) && log[..n][i].event.key == at.key && log[..n][i].event.start == at.start {
          assert IsLast(log, i);
        }
      }
    }
  }

  lemma {:induction false} StaysStored(store: Store, log: seq<Action>, at: DocKey)
    requires at in store
    ensures at in Persist(store, log)
  {
    if log != [] {
      StaysStored(store, log[..|log|-1], at);
    }
  }

  lemma {:induction false} LastExists(log: seq<Action>, i: nat) returns (k: nat)
    requires i < |log|
    ensures i <= k && IsLast(log, k) && DocKey(log[k].event.key, log[k].event.start) == DocKey(log[i].event.key, log[i].event.start)
    decreases |log| - i
  {
    k := i;
    if m :| i < m < |log| && DocKey(log[m].event.key, log[m].event.start) == DocKey(log[i].event.key, log[i].event.start) {
      k := LastExists(log, m);
    }
  }

  /** Replaying a log onto the store it left changes nothing. */
  lemma ReplayIsIdempotent(store: Store, log: seq<Action>)
    ensures Persist(Persist(store, log), log) == Persist(store, log)
  {
    var once := Persist(store, log);
    var twice := Persist(once, log);
    forall at | at in twice ensures at in once && twice[at] == once[at] {
      StoredIsLast(once, log, at);
      if i: nat :| IsLast(log, i) && DocKey(log[i].event.key, log[i].event.start) == at {
        LastIsStored(store, log, i);
        LastIsStored(once, log, i);
      }
    }
    forall at | at in once ensures at in twice {
      StaysStored(once, log, at);
    }
  }

  function News(log: seq<Action>): nat {
    if log == [] then 0 else News(log[..|log|-1]) + (if log[|log|-1].kind.New? then 1 else 0)
  }

  /** The i-th action is the last on its pair among the first n. */
  ghost predicate LastBefore(log: seq<Action>, key: Key, i: nat, n: nat) {
    i < n <= |log| && log[i].event.key == key && forall k :: i < k < n ==> log[k].event.key != key
  }

  /** The j-th action is about the incident the pair's action before it is about. */
  ghost predicate CarriesOnAt(log: seq<Action>, j: nat)
    requires j < |log|
  {
    exists i: nat :: LastBefore(log, log[j].event.key, i, j) && log[i].event.start == log[j].event.start
  }

  /** Every update carries on the incident the pair's latest action is about. */
  ghost predicate CarriesOn(log: seq<Action>) {
    forall j :: 0 <= j < |log| && log[j].kind.Update? ==> CarriesOnAt(log, j)
  }

  lemma CarriesOnAfter(log: seq<Action>, a: Action)
    requires CarriesOn(log)
    requires a.kind.Update? ==> exists i: nat :: LastBefore(log, a.event.key, i, |log|) && log[i].event.start == a.event.start
    ensures CarriesOn(log + [a])
  {
    var more := log + [a];
    forall j | 0 <= j < |more| && more[j].kind.Update? ensures CarriesOnAt(more, j) {
      if j < |log| {
        assert CarriesOnAt(log, j);
        var i: nat :| LastBefore(log, log[j].event.key, i, j) && log[i].event.start == log[j].event.start;
        assert LastBefore(more, more[j].event.key, i, j);
      } else {
        var i: nat :| LastBefore(log, a.event.key, i, |log|) && log[i].event.start == a.event.start;
        assert LastBefore(more, more[j].event.key, i, j);
      }
    }
  }

  lemma CarriesOnBefore(log: seq<Action>, n: nat)
    requires CarriesOn(log) && n <= |log|
    ensures CarriesOn(log[..n])
  {
    forall j | 0 <= j < n && log[j].kind.Update? ensures CarriesOnAt(log[..n], j) {
      assert CarriesOnAt(log, j);
      var i: nat :| LastBefore(log, log[j].event.key, i, j) && log[i].event.start == log[j].event.start;
      assert LastBefore(log[..n], log[j].event.key, i, j);
    }
  }

  lemma {:induction false} BornOf(log: seq<Action>, j: nat) returns (i: nat)
    requires CarriesOn(log) && j < |log|
    ensures i <= j && log[i].kind.New? && DocKey(log[i].event.key, log[i].event.start) == DocKey(log[j].event.key, log[j].event.start)
  {
    if log[j].kind.New? {
      i := j;
    } else {
      assert CarriesOnAt(log, j);
      var k: nat :| LastBefore(log, log[j].event.key, k, j) && log[k].event.start == log[j].event.start;
      i := BornOf(log, k);
    }
  }

  /** The starts emitted for a pair never go back. */
  lemma {:induction false} StartsRise(log: seq<Action>, i: nat, j: nat)
    requires CarriesOn(log) && Spaced(log) && Dated(log) && i < j < |log| && log[i].event.key == log[j].event.key
    ensures log[i].event.start <= log[j].event.start
    decreases j
  {
    if log[j].kind.Update? {
      assert CarriesOnAt(log, j);
      var k: nat :| LastBefore(log, log[j].event.key, k, j) && log[k].event.start == log[j].event.start;
      if i < k {
        StartsRise(log, i, k);
      }
    }
  }

  ghost predicate Dated(log: seq<Action>) {
    forall i :: 0 <= i < |log| ==> log[i].event.start <= log[i].event.end
  }

  lemma DocumentsAreIncidents(log: seq<Action>, at: DocKey)
    requires CarriesOn(log)
    ensures at in Persist(map[], log) <==> exists i :: 0 <= i < |log| && log[i].kind.New? && DocKey(log[i].event.key, log[i].event.start) == at
  {
    if at in Persist(map[], log) {
      StoredIsLast(map[], log, at);
      var i: nat :| IsLast(log, i) && DocKey(log[i].event.key, log[i].event.start) == at;
      var k := BornOf(log, i);
    }
    if i :| 0 <= i < |log| && log[i].kind.New? && DocKey(log[i].event.key, log[i].event.start) == at {
      var k := LastExists(log, i);
      LastIsStored(map[], log, k);
    }
  }

  lemma DocumentIsLatest(log: seq<Action>, i: nat)
    requires Spaced(log) && i < |log|
    ensures DocKey(log[i].event.key, log[i].event.start) in Persist(map[], log)
    ensures log[i].event.end <= Persist(map[], log)[DocKey(log[i].event.key, log[i].event.start)].end
  {
    var k := LastExists(log, i);
    LastIsStored(map[], log, k);
  }

  lemma NewIsFresh(log: seq<Action>)
    requires log != [] && Spaced(log) && CarriesOn(log) && Dated(log)
    ensures DocKey(log[|log|-1].event.key, log[|log|-1].event.start) in Persist(map[], log[..|log|-1]) <==> log[|log|-1].kind.Update?
  {
    var n := |log| - 1;
    var at := DocKey(log[n].event.key, log[n].event.start);
    CarriesOnBefore(log, n);
    DocumentsAreIncidents(log[..n], at);
    if log[n].kind.Update? {
      var i := BornOf(log, n);
      assert log[..n][i] == log[i];
    }
  }

  lemma {:induction false} CountDocuments(log: seq<Action>)
    requires Spaced(log) && CarriesOn(log) && Dated(log)
    ensures |Persist(map[], log)| == News(log)
  {
    if log != [] {
      var n := |log| - 1;
      assert log == log[..n] + [log[n]];
      CarriesOnBefore(log, n);
      CountDocuments(log[..n]);
      NewIsFresh(log);
      var before := Persist(map[], log[..n]);
      assert Persist(map[], log).Keys == before.Keys + {DocKey(log[n].event.key, log[n].event.start)};
    }
  }

  /** With stable keys the store holds exactly one document a "new" action, at its latest end. */
  lemma OneDocumentPerIncident(log: seq<Action>)
    requires Spaced(log) && CarriesOn(log) && Dated(log)
    ensures |Persist(map[], log)| == News(log)
    ensures forall at :: at in Persist(map[], log)
                         <==> exists i :: 0 <= i < |log| && log[i].kind.New? && DocKey(log[i].event.key, log[i].event.start) == at
    ensures forall i :: 0 <= i < |log| ==>
              DocKey(log[i].event.key, log[i].event.start) in Persist(map[], log)
              && log[i].event.end <= Persist(map[], log)[DocKey(log[i].event.key, log[i].event.start)].end
  {
    CountDocuments(log);
    forall at ensures at in Persist(map[], log)
                      <==> exists i :: 0 <= i < |log| && log[i].kind.New? && DocKey(log[i].event.key, log[i].event.start) == at
    {
      DocumentsAreIncidents(log, at);
    }
    forall i | 0 <= i < |log|
      ensures DocKey(log[i].event.key, log[i].event.start) in Persist(map[], log)
              && log[i].event.end <= Persist(map[], log)[DocKey(log[i].event.key, log[i].event.start)].end
    {
      DocumentIsLatest(log, i);
    }
  }
}

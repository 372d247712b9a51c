/** consumer.py: the loop of run and _process_window, as far as bunching goes. */
module BunchingPipeline {
  import opened Options
  import opened Pings
  import opened Bunching
  import opened BunchingEvents
  import opened BunchingTracker
  import opened BunchingFrames
  import opened BunchingBound

  lemma CloseApart(st: Static, frame: seq<Ping>)
    requires DistinctTimes(frame)
    ensures Apart(ClosePairs(st, frame))
  {
    PairsOncePerBucket(st, frame);
  }

  method DetectWindow(st: Static, frame: seq<Ping>) returns (events: seq<Event>)
    requires DistinctTimes(frame)
    ensures Finds(st, frame, MIN_CONSECUTIVE, events)
  {
    var closePairs, separatedPairs := ClosePairs(st, frame), FarPairs(st, frame);
    CloseApart(st, frame);
    events := DetectBunchingEvents(closePairs, MIN_CONSECUTIVE, Some(separatedPairs));
  }

  lemma NothingFound(st: Static)
    ensures Finds(st, [], MIN_CONSECUTIVE, [])
  {
    var close := ClosePairs(st, []);
    forall key ensures |Buckets(close, key)| < MIN_CONSECUTIVE {
      if t :| t in Buckets(close, key) {
        var p := InBuckets(close, key, t);
        PairsAreNestedLoops(st, [], p);
      } else {
        assert Buckets(close, key) == {};
      }
    }
    NothingLasting(close, Some(FarPairs(st, [])), MIN_CONSECUTIVE);
  }

  /** One window: detect, reconcile, upsert; an empty frame is skipped. */
  method ProcessWindow(st: Static, frame: seq<Ping>, tracker: BunchingEventTracker, store: Store)
    returns (actions: seq<Action>, stored: Store, ghost events: seq<Event>)
    requires DistinctTimes(frame)
    modifies tracker
    ensures Finds(st, frame, MIN_CONSECUTIVE, events)
    ensures frame == [] ==> actions == [] && tracker.lastSeen == old(tracker.lastSeen)
    ensures frame != [] ==>
              actions == Reconcile(old(tracker.lastSeen), events).actions
              && tracker.lastSeen == Purge(Reconcile(old(tracker.lastSeen), events).seen, MaxTime(frame) - tracker.retention)
    ensures stored == Persist(store, actions)
  {
    actions, stored, events := [], store, [];
    if frame == [] {
      NothingFound(st);
      return;
    }
    var reference := MaxTime(frame);
    var bunchingEvents := DetectWindow(st, frame);
    events := bunchingEvents;
    actions := tracker.ReconcileEvents(bunchingEvents, reference);
    var operations := BuildBunchingOperations(actions);
    stored := Upserts(store, operations);
    UpsertsPersist(store, operations, actions);
  }

  // ----- the run, filled in window by window

  /** The first j windows of the run are what they should be. */
  ghost predicate ValidUpTo(r: Run, j: nat) {
    && Cut(r) && j <= |r.cuts|
    && (forall k {:trigger Detected(r, k)} :: 0 <= k < j ==> Detected(r, k))
    && (forall k {:trigger Reconciles(r, k)} :: 0 <= k < j ==> Reconciles(r, k))
  }

  ghost function Blank(st: Static, stream: seq<Ping>, cuts: seq<nat>, overlap: int, retention: int): Run
    requires Cuts(stream, cuts)
  {
    Run(st, stream, cuts, overlap, retention, MIN_CONSECUTIVE,
        seq(|cuts|, j requires 0 <= j < |cuts| => Frame(stream, cuts, overlap, j)), seq(|cuts|, _ => []), seq(|cuts| + 1, _ => map[]), seq(|cuts| + 1, _ => []))
  }

  ghost function FillIn(r: Run, j: nat, events: seq<Event>, seen: Seen, log: seq<Action>): Run
    requires Cut(r) && j < |r.cuts|
  {
    r.(detections := r.detections[j := events], tracked := r.tracked[j + 1 := seen], logs := r.logs[j + 1 := log])
  }

  lemma FilledIsCut(r: Run, j: nat, events: seq<Event>, seen: Seen, log: seq<Action>)
    requires Cut(r) && j < |r.cuts|
    ensures Cut(FillIn(r, j, events, seen, log))
  {
    forall k | 0 <= k < |r.cuts| ensures IsFrame(FillIn(r, j, events, seen, log), k) {
      assert IsFrame(r, k);
    }
  }

  lemma WindowReconciled(r: Run, j: nat, frame: seq<Ping>, events: seq<Event>, seen: Seen, actions: seq<Action>)
    requires Cut(r) && j < |r.cuts|
    requires frame == [] <==> r.cuts[j] == 0
    requires frame == [] ==> actions == [] && seen == r.tracked[j]
    requires frame != [] ==> MaxTime(frame) == r.stream[r.cuts[j] - 1].time
    requires frame != [] ==>
               actions == Reconcile(r.tracked[j], events).actions
               && seen == Purge(Reconcile(r.tracked[j], events).seen, MaxTime(frame) - r.retention)
    requires Cut(FillIn(r, j, events, seen, r.logs[j] + actions))
    ensures Reconciles(FillIn(r, j, events, seen, r.logs[j] + actions), j)
  {
    assert r.logs[j] + [] == r.logs[j];
  }

  lemma WindowDone(r: Run, j: nat, events: seq<Event>, seen: Seen, actions: seq<Action>)
    requires Cut(r) && j < |r.cuts| && Finds(r.st, FrameOf(r, j), r.least, events)
    requires FrameOf(r, j) == [] ==> actions == [] && seen == r.tracked[j]
    requires FrameOf(r, j) != [] ==>
               actions == Reconcile(r.tracked[j], events).actions
               && seen == Purge(Reconcile(r.tracked[j], events).seen, MaxTime(FrameOf(r, j)) - r.retention)
    ensures var q := FillIn(r, j, events, seen, r.logs[j] + actions); Cut(q) && Detected(q, j) && Reconciles(q, j)
  {
    FilledIsCut(r, j, events, seen, r.logs[j] + actions);
    var lo := FrameFacts(r, j);
    WindowReconciled(r, j, FrameOf(r, j), events, seen, actions);
  }

  lemma WindowsStay(r: Run, j: nat, k: nat, events: seq<Event>, seen: Seen, log: seq<Action>)
    requires Cut(r) && k < j < |r.cuts| && Cut(FillIn(r, j, events, seen, log)) && Detected(r, k) && Reconciles(r, k)
    ensures Detected(FillIn(r, j, events, seen, log), k) && Reconciles(FillIn(r, j, events, seen, log), k)
  {
  }

  lemma OneWindowMore(r: Run, j: nat, events: seq<Event>, seen: Seen, log: seq<Action>)
    requires ValidUpTo(r, j) && j < |r.cuts|
    requires var q := FillIn(r, j, events, seen, log); Cut(q) && Detected(q, j) && Reconciles(q, j)
    ensures ValidUpTo(FillIn(r, j, events, seen, log), j + 1)
  {
    var q := FillIn(r, j, events, seen, log);
    forall k | 0 <= k < j + 1 ensures Detected(q, k) && Reconciles(q, k) {
      if k < j {
        assert Detected(r, k) && Reconciles(r, k);
        WindowsStay(r, j, k, events, seen, log);
      }
    }
  }

  lemma FrameIsDistinct(r: Run, j: nat)
    requires Cut(r) && j < |r.cuts|
    ensures DistinctTimes(FrameOf(r, j))
  {
    var lo := FrameFacts(r, j);
    SliceIsOrdered(r.stream, lo, r.cuts[j]);
  }

  ghost predicate Holding(rows: seq<Ping>, r: Run, j: nat)
    requires Cut(r) && j <= |r.cuts|
  {
    rows == if j == 0 then [] else Carry(FrameOf(r, j - 1), r.overlap)
  }

  lemma HoldingGives(rows: seq<Ping>, r: Run, j: nat)
    requires Cut(r) && j < |r.cuts| && Holding(rows, r, j)
    ensures Arrived(r.cuts, j) <= r.cuts[j] <= |r.stream|
    ensures rows + r.stream[Arrived(r.cuts, j)..r.cuts[j]] == FrameOf(r, j)
  {
    assert IsFrame(r, j);
    if j > 0 {
      assert IsFrame(r, j - 1);
    }
  }

  /** The consumer and the run agree before the j-th flush. */
  ghost predicate InStep(r: Run, j: nat, rows: seq<Ping>, seen: Seen, log: seq<Action>) {
    ValidUpTo(r, j) && Holding(rows, r, j) && seen == r.tracked[j] && log == r.logs[j]
  }

  lemma BlankIsInStep(st: Static, stream: seq<Ping>, cuts: seq<nat>, overlap: int, retention: int)
    requires InOrder(stream) && DistinctTimes(stream) && Cuts(stream, cuts) && overlap >= 0
    ensures InStep(Blank(st, stream, cuts, overlap, retention), 0, [], map[], [])
  {
    var r := Blank(st, stream, cuts, overlap, retention);
    forall k | 0 <= k < |cuts| ensures IsFrame(r, k) {
    }
  }

  /** The run is over this input, and looks for events of two observations or more. */
  ghost predicate IsOver(r: Run, st: Static, stream: seq<Ping>, cuts: seq<nat>, overlap: int, retention: int) {
    r.st == st && r.stream == stream && r.cuts == cuts && r.overlap == overlap && r.retention == retention && r.least == 2
  }

  /** What one turn of the loop leaves behind, given the frame it flushed. */
  ghost predicate Taken(st: Static, overlap: int, retention: int, frame: seq<Ping>, seen: Seen,
                        events: seq<Event>, actions: seq<Action>, rows: seq<Ping>, newSeen: Seen) {
    && Finds(st, frame, MIN_CONSECUTIVE, events)
    && rows == Carry(frame, overlap)
    && (frame == [] ==> actions == [] && newSeen == seen)
    && (frame != [] ==>
          actions == Reconcile(seen, events).actions
          && newSeen == Purge(Reconcile(seen, events).seen, MaxTime(frame) - retention))
  }

  lemma StepTaken(r: Run, j: nat, rows: seq<Ping>, seen: Seen, log: seq<Action>, events: seq<Event>, actions: seq<Action>,
                  newRows: seq<Ping>, newSeen: Seen) returns (q: Run)
    requires j < |r.cuts| && InStep(r, j, rows, seen, log) && r.least == MIN_CONSECUTIVE
    requires Taken(r.st, r.overlap, r.retention, FrameOf(r, j), seen, events, actions, newRows, newSeen)
    ensures InStep(q, j + 1, newRows, newSeen, log + actions) && IsOver(q, r.st, r.stream, r.cuts, r.overlap, r.retention)
  {
    WindowDone(r, j, events, newSeen, actions);
    OneWindowMore(r, j, events, newSeen, log + actions);
    q := FillIn(r, j, events, newSeen, log + actions);
  }

  /** One turn of the loop: what arrives is added, the window flushed and processed. */
  method TakeWindow(buffer: PingWindowBuffer, tracker: BunchingEventTracker, st: Static, arrivals: seq<Ping>,
                    store: Store, ghost frame: seq<Ping>)
    returns (actions: seq<Action>, stored: Store, ghost events: seq<Event>)
    requires frame == buffer.rows + arrivals && DistinctTimes(frame)
    modifies buffer, tracker
    ensures Taken(st, buffer.overlap, tracker.retention, frame, old(tracker.lastSeen), events, actions, buffer.rows, tracker.lastSeen)
    ensures stored == Persist(store, actions)
  {
    buffer.AddAll(arrivals);
    var batch := buffer.Flush();
    actions, stored, events := ProcessWindow(st, batch, tracker, store);
  }

  /** Where the consumer stands before the j-th flush: in step with a run over its input, everything emitted stored. */
  ghost predicate Going(r: Run, j: nat, st: Static, stream: seq<Ping>, cuts: seq<nat>, overlap: int, retention: int,
                        rows: seq<Ping>, seen: Seen, log: seq<Action>, store: Store) {
    && IsOver(r, st, stream, cuts, overlap, retention)
    && InStep(r, j, rows, seen, log)
    && store == Persist(map[], log)
  }

  lemma GoingOn(r: Run, j: nat, st: Static, stream: seq<Ping>, cuts: seq<nat>, overlap: int, retention: int,
                rows: seq<Ping>, seen: Seen, log: seq<Action>, store: Store,
                q: Run, newRows: seq<Ping>, newSeen: Seen, actions: seq<Action>, stored: Store)
    requires Going(r, j, st, stream, cuts, overlap, retention, rows, seen, log, store)
    requires InStep(q, j + 1, newRows, newSeen, log + actions) && IsOver(q, st, stream, cuts, overlap, retention)
    requires stored == Persist(store, actions)
    ensures Going(q, j + 1, st, stream, cuts, overlap, retention, newRows, newSeen, log + actions, stored)
  {
    PersistJoins(map[], log, actions);
  }

  method OneWindow(buffer: PingWindowBuffer, tracker: BunchingEventTracker, st: Static, arrivals: seq<Ping>, log: seq<Action>,
                   store: Store, ghost stream: seq<Ping>, ghost cuts: seq<nat>, ghost r: Run, ghost j: nat)
    returns (log': seq<Action>, store': Store, ghost q: Run)
    requires j < |cuts|
    requires Going(r, j, st, stream, cuts, buffer.overlap, tracker.retention, buffer.rows, tracker.lastSeen, log, store)
    requires Arrived(cuts, j) <= cuts[j] <= |stream| && arrivals == stream[Arrived(cuts, j)..cuts[j]]
    modifies buffer, tracker
    ensures Going(q, j + 1, st, stream, cuts, buffer.overlap, tracker.retention, buffer.rows, tracker.lastSeen, log', store')
  {
    HoldingGives(buffer.rows, r, j);
    FrameIsDistinct(r, j);
    ghost var rows, seen := buffer.rows, tracker.lastSeen;
    ghost var events;
    var actions;
    actions, store', events := TakeWindow(buffer, tracker, st, arrivals, store, FrameOf(r, j));
    q := StepTaken(r, j, rows, seen, log, events, actions, buffer.rows, tracker.lastSeen);
    GoingOn(r, j, st, stream, cuts, buffer.overlap, tracker.retention, rows, seen, log, store,
            q, buffer.rows, tracker.lastSeen, actions, store');
    log' := log + actions;
  }

  lemma GoingFromStart(st: Static, stream: seq<Ping>, cuts: seq<nat>, overlap: int, retention: int)
    requires InOrder(stream) && DistinctTimes(stream) && Cuts(stream, cuts) && overlap >= 0
    ensures Going(Blank(st, stream, cuts, overlap, retention), 0, st, stream, cuts, overlap, retention, [], map[], [], map[])
  {
    BlankIsInStep(st, stream, cuts, overlap, retention);
  }

  lemma GoneThrough(r: Run, st: Static, stream: seq<Ping>, cuts: seq<nat>, overlap: int, retention: int,
                    rows: seq<Ping>, seen: Seen, log: seq<Action>, store: Store)
    requires Going(r, |cuts|, st, stream, cuts, overlap, retention, rows, seen, log, store)
    ensures Valid(r) && IsOver(r, st, stream, cuts, overlap, retention)
    ensures log == Emitted(r) && store == Persist(map[], log)
  {
  }

  /**
   The whole consumer over a stream and its flush points. What it emits and stores is a
   valid run, so everything proved of runs holds of it.
   */
  method Consume(st: Static, stream: seq<Ping>, cuts: seq<nat>, overlap: int, retention: int)
    returns (log: seq<Action>, store: Store, ghost r: Run)
    requires InOrder(stream) && DistinctTimes(stream) && Cuts(stream, cuts) && overlap >= 0
    ensures Valid(r) && IsOver(r, st, stream, cuts, overlap, retention)
    ensures log == Emitted(r) && store == Persist(map[], log)
  {
    var buffer := new PingWindowBuffer(overlap);
    var tracker := new BunchingEventTracker(retention);
    log, store := [], map[];
    r := Blank(st, stream, cuts, overlap, retention);
    GoingFromStart(st, stream, cuts, overlap, retention);
    var arrived, j := 0, 0;
    while j < |cuts|
      invariant 0 <= j <= |cuts| && arrived == Arrived(cuts, j)
      invariant Going(r, j, st, stream, cuts, overlap, retention, buffer.rows, tracker.lastSeen, log, store)
    {
      CutsInOrder(stream, cuts, j);
      log, store, r := OneWindow(buffer, tracker, st, stream[arrived..cuts[j]], log, store, stream, cuts, r, j);
      arrived := cuts[j];
      j := j + 1;
    }
    GoneThrough(r, st, stream, cuts, overlap, retention, buffer.rows, tracker.lastSeen, log, store);
  }
}

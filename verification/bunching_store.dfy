/** What the upserted bunching documents say at the end of a run. */
module BunchingStore {
  import opened Options
  import opened Pings
  import opened Bunching
  import opened BunchingEvents
  import opened BunchingTracker
  import opened BunchingFrames
  import opened BunchingRuns
  import opened BunchingCoverage
  import opened BunchingRefinement

  ghost predicate Remembers(r: Run) {
    r.retention >= r.overlap + 2 * POLL && r.retention >= (TOLERANCE + 1) * POLL
  }

  /** Every run of just enough observations of the uncut stream fits into the overlap. */
  ghost predicate StretchesFit(r: Run) {
    forall key, t, u :: IsJustEnough(r, key, t, u) ==> Fits(r, t, u)
  }

  ghost predicate IsJustEnough(r: Run, key: Key, t: int, u: int) {
    && IsRun(CloseOf(r.st, r.stream, key), FarOf(r.st, r.stream, key), t, u)
    && |Span(CloseOf(r.st, r.stream, key), t, u)| == r.least
  }

  /** So many observations lie no further apart than that many tolerated gaps. */
  lemma {:induction false} RunIsShort(c: set<int>, s: Option<set<int>>, t: int, u: int)
    requires IsRun(c, s, t, u)
    ensures 1 <= |Span(c, t, u)| && u - t <= (|Span(c, t, u)| - 1) * TOLERANCE * POLL
    decreases u - t
  {
    if t < u {
      var w := Predecessor(c, u, t);
      SpanNext(c, t, w, u);
      PartOfRun(c, s, t, u, t, w);
      RunIsShort(c, s, t, w);
      assert Link(s, w, u);
    } else {
      assert Span(c, t, u) == {t};
    }
  }

  /** An overlap of that many gaps and a poll is enough, whatever the stream: three polls when two observations are enough. */
  lemma WidestStretchFits(r: Run)
    requires r.overlap + 1 >= (r.least - 1) * TOLERANCE * POLL + POLL
    ensures StretchesFit(r)
  {
    forall key, t, u | IsJustEnough(r, key, t, u) ensures Fits(r, t, u) {
      RunIsShort(CloseOf(r.st, r.stream, key), FarOf(r.st, r.stream, key), t, u);
    }
  }

  /**
   The natural key is stable: with at most one ping a vehicle and bucket, every update
   carries the start its incident was first reported with, so the store holds exactly one
   document a "new" action, at its latest end, and replaying the log leaves it as it is.
   */
  lemma NaturalKeyIsStable(r: Run)
    requires Valid(r) && OnePerBucket(r.st, r.stream) && r.retention >= r.overlap + 2 * POLL
    ensures var log, store := Emitted(r), Persist(map[], Emitted(r));
            && CarriesOn(log)
            && |store| == News(log)
            && (forall i :: 0 <= i < |log| ==>
                  DocKey(log[i].event.key, log[i].event.start) in store && log[i].event.end <= store[DocKey(log[i].event.key, log[i].event.start)].end)
            && Persist(store, log) == store
  {
    RunKeeps(r, |r.cuts|);
    NoIncidentTwice(r);
    OneDocumentPerIncident(Emitted(r));
    ReplayIsIdempotent(map[], Emitted(r));
  }

  // ----- the store is what detection finds uncut

  lemma EmittedFacts(r: Run, i: nat)
    requires Valid(r) && OnePerBucket(r.st, r.stream) && Remembers(r) && i < |Emitted(r)|
    ensures IsUncut(r, Emitted(r)[i].event)
  {
    RunKeeps(r, |r.cuts|);
  }

  /** A maximal run of the uncut stream is emitted exactly. */
  lemma MaximalIsEmitted(r: Run, key: Key, b: int, e: int) returns (i: nat)
    requires Valid(r) && OnePerBucket(r.st, r.stream) && Remembers(r) && AllFlushed(r) && StretchesFit(r)
    requires IsMaximal(CloseOf(r.st, r.stream, key), FarOf(r.st, r.stream, key), b, e)
    requires |Span(CloseOf(r.st, r.stream, key), b, e)| >= r.least
    ensures i < |Emitted(r)| && Emitted(r)[i].event.key == key
    ensures Emitted(r)[i].event.start == b && Emitted(r)[i].event.end == e
  {
    AllStretchesFit(r, key, b, e);
    var a := UncutRunIsCovered(r, key, b, e);
    i :| 0 <= i < |Emitted(r)| && Emitted(r)[i] == a;
    EmittedFacts(r, i);
    MaximalHolds(CloseOf(r.st, r.stream, key), FarOf(r.st, r.stream, key), b, e, a.event.start, a.event.end);
  }

  /** Among enough observations up to u, the last just enough. */
  lemma {:induction false} LastObservations(c: set<int>, b: int, u: int, n: nat) returns (v: int)
    requires b in c && u in c && b <= u && 1 <= n <= |Span(c, b, u)|
    ensures v in c && b <= v <= u && |Span(c, v, u)| == n
    decreases u - b
  {
    if |Span(c, b, u)| == n {
      v := b;
    } else {
      LongerThanOne(c, b, u);
      var w := Successor(c, b, u);
      assert Span(c, b, u) == Span(c, w, u) + {b};
      v := LastObservations(c, w, u, n);
    }
  }

  lemma AllStretchesFit(r: Run, key: Key, b: int, e: int)
    requires Cut(r) && StretchesFit(r) && IsRun(CloseOf(r.st, r.stream, key), FarOf(r.st, r.stream, key), b, e)
    ensures AllFit(r, key, b, e)
  {
    var c, s := CloseOf(r.st, r.stream, key), FarOf(r.st, r.stream, key);
    forall u | u in c && b <= u <= e && |Span(c, b, u)| >= r.least ensures Reaches(r, key, b, u) {
      var v := LastObservations(c, b, u, r.least);
      PartOfRun(c, s, b, e, v, u);
      assert IsJustEnough(r, key, v, u);
    }
  }

  /** The last action on a document is a maximal run of the uncut stream, end to end. */
  lemma DocumentIsMaximal(r: Run, i: nat)
    requires Valid(r) && OnePerBucket(r.st, r.stream) && Remembers(r) && AllFlushed(r) && StretchesFit(r)
    requires IsLast(Emitted(r), i)
    ensures var ev := Emitted(r)[i].event;
            IsMaximal(CloseOf(r.st, r.stream, ev.key), FarOf(r.st, r.stream, ev.key), ev.start, ev.end)
  {
    var log := Emitted(r);
    var ev := log[i].event;
    EmittedFacts(r, i);
    var b, e := ExtendRun(CloseOf(r.st, r.stream, ev.key), FarOf(r.st, r.stream, ev.key), ev.start, ev.end);
    SpanWidens(CloseOf(r.st, r.stream, ev.key), ev.start, ev.end, b, e);
    var k := MaximalIsEmitted(r, ev.key, b, e);
    NoIncidentTwice(r);
    RunKeeps(r, |r.cuts|);
    if i < k {
      StartsRise(log, i, k);
    }
  }

  /** The document of a maximal run says so. */
  lemma MaximalIsDocument(r: Run, key: Key, b: int, e: int)
    requires Valid(r) && OnePerBucket(r.st, r.stream) && Remembers(r) && AllFlushed(r) && StretchesFit(r)
    requires IsMaximal(CloseOf(r.st, r.stream, key), FarOf(r.st, r.stream, key), b, e)
    requires |Span(CloseOf(r.st, r.stream, key), b, e)| >= r.least
    ensures var store := Persist(map[], Emitted(r));
            && DocKey(key, b) in store && store[DocKey(key, b)].end == e
            && IsClosest(ClosePairs(r.st, r.stream), key, b, e, store[DocKey(key, b)].minDistance)
  {
    var log := Emitted(r);
    var i := MaximalIsEmitted(r, key, b, e);
    var k := LastExists(log, i);
    LastIsStored(map[], log, k);
    EmittedFacts(r, k);
    DocumentIsMaximal(r, k);
    assert log[k].event.key == key && log[k].event.start == b;
    MaximalHolds(CloseOf(r.st, r.stream, key), FarOf(r.st, r.stream, key), b, e, b, log[k].event.end);
    MaximalHolds(CloseOf(r.st, r.stream, key), FarOf(r.st, r.stream, key), b, log[k].event.end, b, e);
  }

  lemma ClosestIsOne(close: seq<Pair>, key: Key, b: int, e: int, d: real, f: real)
    requires IsClosest(close, key, b, e, d) && IsClosest(close, key, b, e, f)
    ensures d == f
  {
  }

  lemma DetectedIsStored(r: Run, events: seq<Event>, ev: Event)
    requires Valid(r) && OnePerBucket(r.st, r.stream) && Remembers(r) && AllFlushed(r) && StretchesFit(r)
    requires Finds(r.st, r.stream, r.least, events) && ev in events
    ensures var store := Persist(map[], Emitted(r));
            && DocKey(ev.key, ev.start) in store
            && store[DocKey(ev.key, ev.start)].end == ev.end && store[DocKey(ev.key, ev.start)].minDistance == ev.minDistance
  {
    assert Describes(ClosePairs(r.st, r.stream), Some(FarPairs(r.st, r.stream)), r.least, ev);
    MaximalIsDocument(r, ev.key, ev.start, ev.end);
    var store := Persist(map[], Emitted(r));
    ClosestIsOne(ClosePairs(r.st, r.stream), ev.key, ev.start, ev.end, store[DocKey(ev.key, ev.start)].minDistance, ev.minDistance);
  }

  lemma StoredIsDetected(r: Run, events: seq<Event>, at: DocKey)
    requires Valid(r) && OnePerBucket(r.st, r.stream) && Remembers(r) && AllFlushed(r) && StretchesFit(r)
    requires Finds(r.st, r.stream, r.least, events)
    requires at in Persist(map[], Emitted(r))
    ensures Reports(events, at.key, at.start, Persist(map[], Emitted(r))[at].end)
  {
    var log := Emitted(r);
    StoredIsLast(map[], log, at);
    var i: nat :| IsLast(log, i) && DocKey(log[i].event.key, log[i].event.start) == at;
    LastIsStored(map[], log, i);
    EmittedFacts(r, i);
    DocumentIsMaximal(r, i);
    var ev := log[i].event;
    assert IsLasting(ClosePairs(r.st, r.stream), Some(FarPairs(r.st, r.stream)), r.least, ev.key, ev.start, ev.end);
  }

  /**
   Cutting is invisible. With at most one ping a vehicle and bucket and runs of just
   enough observations that fit into the overlap, the store after any cutting of the stream holds exactly the events
   detection finds in the uncut stream, with their ends and smallest distances.
   */
  lemma StoreIsUncutDetection(r: Run, events: seq<Event>)
    requires Valid(r) && OnePerBucket(r.st, r.stream) && Remembers(r) && AllFlushed(r) && StretchesFit(r)
    requires Finds(r.st, r.stream, r.least, events)
    ensures var store := Persist(map[], Emitted(r));
            && (forall at :: at in store ==> Reports(events, at.key, at.start, store[at].end))
            && (forall ev :: ev in events ==>
                  && DocKey(ev.key, ev.start) in store
                  && store[DocKey(ev.key, ev.start)].end == ev.end
                  && store[DocKey(ev.key, ev.start)].minDistance == ev.minDistance)
  {
    var store := Persist(map[], Emitted(r));
    forall at | at in store ensures Reports(events, at.key, at.start, store[at].end) {
      StoredIsDetected(r, events, at);
    }
    forall ev | ev in events
      ensures DocKey(ev.key, ev.start) in store && store[DocKey(ev.key, ev.start)].end == ev.end
      ensures store[DocKey(ev.key, ev.start)].minDistance == ev.minDistance
    {
      DetectedIsStored(r, events, ev);
    }
  }
}

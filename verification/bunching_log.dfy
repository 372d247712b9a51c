/**
 What every action and every document of a run says: which detection of which frame it
 reports, with that frame's observation count.
 */
module BunchingLog {
  import opened Options
  import opened Pings
  import opened Bunching
  import opened BunchingEvents
  import opened BunchingTracker
  import opened BunchingFrames
  import opened BunchingKeys

  /** One of two values, and no more than either. */
  ghost predicate IsEarlier(t: int, a: int, b: int) {
    t <= a && t <= b && (t == a || t == b)
  }

  ghost predicate IsNearer(d: real, a: real, b: real) {
    d <= a && d <= b && (d == a || d == b)
  }

  /**
   The update joins the detected event to what was last reported of the pair: no more than 15
   seconds lie between them, it reaches further, and the smaller start and distance are kept.
   */
  ghost predicate Widens(previous: Event, ev: Event, updated: Event) {
    && ev.start <= previous.end + 15_000 && previous.end < ev.end
    && IsEarlier(updated.start, previous.start, ev.start)
    && IsNearer(updated.minDistance, previous.minDistance, ev.minDistance)
  }

  /** The i-th action reports the detected event: up to its end, with its count. */
  ghost predicate Answers(log: seq<Action>, i: nat, ev: Event) {
    && i < |log|
    && log[i].event.key == ev.key && log[i].event.end == ev.end && log[i].event.count == ev.count
    && (log[i].kind.New? ==> log[i].event.start == ev.start && log[i].event.minDistance == ev.minDistance)
    && (log[i].kind.Update? ==>
          exists k: nat :: LastBefore(log, ev.key, k, i) && Widens(log[k].event, ev, log[i].event))
  }

  lemma AnswersLater(log: seq<Action>, more: seq<Action>, i: nat, ev: Event)
    requires log <= more && Answers(log, i, ev)
    ensures Answers(more, i, ev)
  {
    if log[i].kind.Update? {
      var k: nat :| LastBefore(log, ev.key, k, i) && Widens(log[k].event, ev, log[i].event);
      assert LastBefore(more, ev.key, k, i);
    }
  }

  /** An event that is not reported adds nothing to what was. */
  ghost predicate ReportedUpTo(log: seq<Action>, key: Key, end: int) {
    exists i :: 0 <= i < |log| && log[i].event.key == key && log[i].event.end >= end
  }

  lemma ReportedLater(log: seq<Action>, more: seq<Action>, key: Key, end: int)
    requires log <= more && ReportedUpTo(log, key, end)
    ensures ReportedUpTo(more, key, end)
  {
    var i :| 0 <= i < |log| && log[i].event.key == key && log[i].event.end >= end;
    assert more[i] == log[i];
  }

  /** One event: at most one action, which reports it; and the pair has been reported at least up to its end. */
  lemma ConsiderAnswers(log: seq<Action>, seen: Seen, ev: Event)
    requires TracksLast(log, seen)
    ensures var more := log + Consider(seen, ev).actions;
            && (forall i: nat :: |log| <= i < |more| ==> Answers(more, i, ev))
            && ReportedUpTo(more, ev.key, ev.end)
  {
    var more := log + Consider(seen, ev).actions;
    if ev.key in seen && Continues(seen[ev.key], ev) {
      var k: nat :| LastBefore(log, ev.key, k, |log|) && log[k].event == seen[ev.key];
      assert LastBefore(more, ev.key, k, |log|) && more[k] == log[k];
      if ev.end > seen[ev.key].end {
        assert more[|log|].event.end == ev.end;
      }
    } else {
      assert more[|log|].event == ev;
    }
  }

  /** The i-th action answers one of the first n events. */
  ghost predicate AnswersOne(log: seq<Action>, i: nat, events: seq<Event>, n: nat) {
    exists x :: 0 <= x < n && x < |events| && Answers(log, i, events[x])
  }

  /** Every action from one on does; and every one of those events is reported. */
  ghost predicate WindowAnswered(log: seq<Action>, from: nat, events: seq<Event>, n: nat)
    requires n <= |events|
  {
    && (forall i: nat :: from <= i < |log| ==> AnswersOne(log, i, events, n))
    && (forall x :: 0 <= x < n ==> ReportedUpTo(log, events[x].key, events[x].end))
  }

  lemma TracksAlong(log: seq<Action>, seen: Seen, events: seq<Event>, n: nat)
    requires TracksLast(log, seen) && n <= |events|
    ensures TracksLast(log + Reconcile(seen, events[..n]).actions, Reconcile(seen, events[..n]).seen)
  {
    ReconcileIff(log, seen, events, n);
  }

  lemma {:induction false} ReconcileAnswers(log: seq<Action>, seen: Seen, events: seq<Event>, n: nat)
    requires TracksLast(log, seen) && n <= |events|
    ensures WindowAnswered(log + Reconcile(seen, events[..n]).actions, |log|, events, n)
  {
    if n > 0 {
      ReconcileAnswers(log, seen, events, n - 1);
      TracksAlong(log, seen, events, n - 1);
      ReconcileStep(seen, events, n);
      OneEventAnswered(log, Reconcile(seen, events[..n - 1]), Reconcile(seen, events[..n]), events, n);
    }
  }

  lemma OneEventAnswered(log: seq<Action>, before: Reconciled, after: Reconciled, events: seq<Event>, n: nat)
    requires 0 < n <= |events| && WindowAnswered(log + before.actions, |log|, events, n - 1)
    requires TracksLast(log + before.actions, before.seen)
    requires after.actions == before.actions + Consider(before.seen, events[n - 1]).actions
    ensures WindowAnswered(log + after.actions, |log|, events, n)
  {
    var mid, more := log + before.actions, log + after.actions;
    assert more == mid + Consider(before.seen, events[n - 1]).actions;
    ConsiderAnswers(mid, before.seen, events[n - 1]);
    forall i: nat | |log| <= i < |more| ensures AnswersOne(more, i, events, n) {
      if i < |mid| {
        assert AnswersOne(mid, i, events, n - 1);
        var x :| 0 <= x < n - 1 && Answers(mid, i, events[x]);
        AnswersLater(mid, more, i, events[x]);
      } else {
        assert Answers(more, i, events[n - 1]);
      }
    }
    forall x | 0 <= x < n ensures ReportedUpTo(more, events[x].key, events[x].end) {
      if x < n - 1 {
        ReportedLater(mid, more, events[x].key, events[x].end);
      }
    }
  }

  // ----- over a run

  /** The j-th window's part of the log answers its frame's events. */
  lemma FrameIsAnswered(r: Run, j: nat)
    requires Cut(r) && j < |r.cuts| && Reconciles(r, j) && TracksLast(r.logs[j], r.tracked[j])
    ensures r.logs[j] <= r.logs[j + 1]
    ensures if r.cuts[j] == 0 then r.logs[j + 1] == r.logs[j]
            else WindowAnswered(r.logs[j + 1], |r.logs[j]|, r.detections[j], |r.detections[j]|)
  {
    if r.cuts[j] > 0 {
      var events := r.detections[j];
      assert events[..|events|] == events;
      ReconcileAnswers(r.logs[j], r.tracked[j], events, |events|);
    }
  }

  /** The i-th action came with window j, in answer to its frame's x-th event. */
  ghost predicate CameWith(r: Run, log: seq<Action>, i: nat, j: nat, x: nat)
    requires Cut(r)
  {
    && j < |r.cuts| && x < |r.detections[j]| && |r.logs[j]| <= i < |r.logs[j + 1]|
    && Answers(log, i, r.detections[j][x])
  }

  lemma {:induction false} EachIsAnswer(r: Run, n: nat, i: nat) returns (j: nat, x: nat)
    requires Valid(r) && n <= |r.cuts| && i < |r.logs[n]|
    ensures j < n && CameWith(r, r.logs[n], i, j, x)
  {
    assert Reconciles(r, n - 1);
    KeysIff(r, n - 1);
    FrameIsAnswered(r, n - 1);
    if i < |r.logs[n - 1]| {
      j, x := EachIsAnswer(r, n - 1, i);
      AnswersLater(r.logs[n - 1], r.logs[n], i, r.detections[j][x]);
    } else {
      j := n - 1;
      x := OneAnswered(r.logs[n], |r.logs[j]|, r.detections[j], i);
    }
  }

  lemma OneAnswered(log: seq<Action>, from: nat, events: seq<Event>, i: nat) returns (x: nat)
    requires WindowAnswered(log, from, events, |events|) && from <= i < |log|
    ensures x < |events| && Answers(log, i, events[x])
  {
    assert AnswersOne(log, i, events, |events|);
    x :| x < |events| && Answers(log, i, events[x]);
  }

  /** The close sightings of the pair that the j-th frame lists between two moments. */
  ghost function Sightings(r: Run, j: nat, key: Key, from: int, to: int): set<int>
    requires j < |r.frames|
  {
    set p | p in ClosePairs(r.st, r.frames[j]) && p.key == key && from <= p.bucket <= to :: p.bucket
  }

  lemma CountIsSightings(r: Run, j: nat, ev: Event)
    requires Cut(r) && j < |r.cuts| && Detected(r, j) && ev in r.detections[j]
    ensures ev.count == |Sightings(r, j, ev.key, ev.start, ev.end)|
    ensures IsClosest(ClosePairs(r.st, r.frames[j]), ev.key, ev.start, ev.end, ev.minDistance)
  {
    assert Describes(ClosePairs(r.st, FrameOf(r, j)), Some(FarPairs(r.st, FrameOf(r, j))), r.least, ev);
    assert Span(Buckets(ClosePairs(r.st, r.frames[j]), ev.key), ev.start, ev.end) == Sightings(r, j, ev.key, ev.start, ev.end);
  }

  /**
   Whatever the stream and the cuts, every action answers one detection of the frame it came
   with: it ends where that does, and its observation count is the number of close sightings of
   the pair in that frame alone between that detection's start and end. A new one starts where
   the detection does, at the smallest distance of those sightings; an update reaches back as far
   as what was last reported of the pair, or further.
   */
  lemma EveryActionIsAnswer(r: Run, i: nat) returns (j: nat, x: nat)
    requires Valid(r) && i < |Emitted(r)|
    ensures CameWith(r, Emitted(r), i, j, x)
    ensures var a, ev := Emitted(r)[i], r.detections[j][x];
            && a.event.count == |Sightings(r, j, ev.key, ev.start, ev.end)|
            && IsClosest(ClosePairs(r.st, r.frames[j]), ev.key, ev.start, ev.end, ev.minDistance)
  {
    j, x := EachIsAnswer(r, |r.cuts|, i);
    assert Detected(r, j);
    CountIsSightings(r, j, r.detections[j][x]);
  }

  lemma {:induction false} EachIsReported(r: Run, n: nat, j: nat, x: nat)
    requires Valid(r) && j < n <= |r.cuts| && x < |r.detections[j]| && r.cuts[j] > 0
    ensures ReportedUpTo(r.logs[n], r.detections[j][x].key, r.detections[j][x].end)
    decreases n
  {
    assert Reconciles(r, n - 1);
    KeysIff(r, n - 1);
    FrameIsAnswered(r, n - 1);
    if j < n - 1 {
      EachIsReported(r, n - 1, j, x);
      ReportedLater(r.logs[n - 1], r.logs[n], r.detections[j][x].key, r.detections[j][x].end);
    }
  }

  /** No detection goes unreported: its pair is emitted at least up to its end. */
  lemma EveryDetectionIsEmitted(r: Run, j: nat, x: nat)
    requires Valid(r) && j < |r.cuts| && r.cuts[j] > 0 && x < |r.detections[j]|
    ensures ReportedUpTo(Emitted(r), r.detections[j][x].key, r.detections[j][x].end)
  {
    EachIsReported(r, |r.cuts|, j, x);
  }

  // ----- in the store

  /** A document is what the last action on its pair and start says, count and all, and each action has one. */
  lemma DocumentIsLastAction(log: seq<Action>, at: DocKey)
    ensures at in Persist(map[], log)
            <==> exists i: nat :: IsLast(log, i) && log[i].event.key == at.key && log[i].event.start == at.start
    ensures forall i: nat :: IsLast(log, i) && log[i].event.key == at.key && log[i].event.start == at.start ==>
              at in Persist(map[], log) && Says(Persist(map[], log)[at], log[i])
  {
    if at in Persist(map[], log) {
      StoredIsLast(map[], log, at);
    }
    forall i: nat | IsLast(log, i) && log[i].event.key == at.key && log[i].event.start == at.start
      ensures at in Persist(map[], log) && Says(Persist(map[], log)[at], log[i])
    {
      LastIsStored(map[], log, i);
    }
  }

  /** The observation count of a document is that of one frame's detection, which ends where the document does. */
  lemma DocumentCounts(r: Run, at: DocKey) returns (j: nat, ev: Event)
    requires Valid(r) && at in Persist(map[], Emitted(r))
    ensures j < |r.cuts| && ev in r.detections[j] && ev.key == at.key
    ensures var doc := Persist(map[], Emitted(r))[at];
            && doc.end == ev.end && at.start <= ev.start
            && doc.count == |Sightings(r, j, ev.key, ev.start, ev.end)|
  {
    DocumentIsLastAction(Emitted(r), at);
    var i: nat :| IsLast(Emitted(r), i) && Emitted(r)[i].event.key == at.key && Emitted(r)[i].event.start == at.start;
    var x;
    j, x := EveryActionIsAnswer(r, i);
    ev := r.detections[j][x];
  }
}

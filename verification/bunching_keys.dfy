/**
 When the natural keys of the bunching documents are stable over a whole run: if and only if
 no event that extends a tracked incident starts before it.
 */
module BunchingKeys {
  import opened Options
  import opened Pings
  import opened Bunching
  import opened BunchingEvents
  import opened BunchingTracker
  import opened BunchingFrames

  /** The event is reported as an update of what is tracked for its pair. */
  ghost predicate Extends(seen: Seen, ev: Event) {
    ev.key in seen && Continues(seen[ev.key], ev) && ev.end > seen[ev.key].end
  }

  /** If it is, it starts no earlier. */
  ghost predicate StartsInside(seen: Seen, ev: Event) {
    Extends(seen, ev) ==> seen[ev.key].start <= ev.start
  }

  /** So do the first n events of a window, each against what is tracked by then. */
  ghost predicate AllInside(seen: Seen, events: seq<Event>, n: nat)
    requires n <= |events|
  {
    forall x :: 0 <= x < n ==> StartsInside(Reconcile(seen, events[..x]).seen, events[x])
  }

  ghost predicate WindowInside(r: Run, j: nat)
    requires Cut(r) && j < |r.cuts|
  {
    r.cuts[j] > 0 ==> AllInside(r.tracked[j], r.detections[j], |r.detections[j]|)
  }

  /** And all events of the first n windows. */
  ghost predicate NoEarlierExtension(r: Run, n: nat)
    requires Cut(r) && n <= |r.cuts|
  {
    forall j {:trigger WindowInside(r, j)} :: 0 <= j < n ==> WindowInside(r, j)
  }

  /** What is tracked for a pair is what was last reported of it. */
  ghost predicate TracksLast(log: seq<Action>, seen: Seen) {
    forall key :: key in seen ==> seen[key].key == key && exists i: nat :: LastBefore(log, key, i, |log|) && log[i].event == seen[key]
  }

  lemma LastIsUnique(log: seq<Action>, key: Key, i: nat, k: nat, n: nat)
    requires LastBefore(log, key, i, n) && LastBefore(log, key, k, n)
    ensures i == k
  {
  }

  /** After one more action on its pair that is what is tracked. */
  lemma TracksAfter(log: seq<Action>, seen: Seen, a: Action)
    requires TracksLast(log, seen)
    ensures TracksLast(log + [a], seen[a.event.key := a.event])
  {
    var more, after := log + [a], seen[a.event.key := a.event];
    forall key | key in after
      ensures after[key].key == key && exists i: nat :: LastBefore(more, key, i, |more|) && more[i].event == after[key]
    {
      if key == a.event.key {
        assert LastBefore(more, key, |log|, |more|);
      } else {
        var i: nat :| LastBefore(log, key, i, |log|) && log[i].event == seen[key];
        assert LastBefore(more, key, i, |more|);
      }
    }
  }

  /** An update keeps the keys stable exactly if its start is the tracked one. */
  lemma UpdateIff(log: seq<Action>, seen: Seen, a: Action)
    requires TracksLast(log, seen) && a.kind.Update? && a.event.key in seen
    ensures CarriesOn(log + [a]) <==> CarriesOn(log) && a.event.start == seen[a.event.key].start
  {
    var more, key := log + [a], a.event.key;
    var i: nat :| LastBefore(log, key, i, |log|) && log[i].event == seen[key];
    if CarriesOn(more) {
      CarriesOnBefore(more, |log|);
      assert more[..|log|] == log;
      assert CarriesOnAt(more, |log|);
      var k: nat :| LastBefore(more, key, k, |log|) && more[k].event.start == a.event.start;
      assert LastBefore(log, key, k, |log|);
      LastIsUnique(log, key, i, k, |log|);
    }
    if CarriesOn(log) && a.event.start == seen[key].start {
      CarriesOnAfter(log, a);
    }
  }

  lemma NewIff(log: seq<Action>, a: Action)
    requires a.kind.New?
    ensures CarriesOn(log + [a]) <==> CarriesOn(log)
  {
    if CarriesOn(log) {
      CarriesOnAfter(log, a);
    }
    if CarriesOn(log + [a]) {
      CarriesOnBefore(log + [a], |log|);
      assert (log + [a])[..|log|] == log;
    }
  }

  /** One event. */
  lemma ConsiderIff(log: seq<Action>, seen: Seen, ev: Event)
    requires TracksLast(log, seen)
    ensures TracksLast(log + Consider(seen, ev).actions, Consider(seen, ev).seen)
    ensures CarriesOn(log + Consider(seen, ev).actions) <==> CarriesOn(log) && StartsInside(seen, ev)
  {
    var got := Consider(seen, ev);
    if ev.key !in seen || !Continues(seen[ev.key], ev) {
      TracksAfter(log, seen, Action(New, ev));
      NewIff(log, Action(New, ev));
    } else if ev.end > seen[ev.key].end {
      TracksAfter(log, seen, got.actions[0]);
      UpdateIff(log, seen, got.actions[0]);
    } else {
      assert log + [] == log;
    }
  }

  /** The first n events of a window. */
  lemma {:induction false} ReconcileIff(log: seq<Action>, seen: Seen, events: seq<Event>, n: nat)
    requires TracksLast(log, seen) && n <= |events|
    ensures TracksLast(log + Reconcile(seen, events[..n]).actions, Reconcile(seen, events[..n]).seen)
    ensures CarriesOn(log + Reconcile(seen, events[..n]).actions) <==> CarriesOn(log) && AllInside(seen, events, n)
  {
    if n == 0 {
      assert log + [] == log;
    } else {
      ReconcileIff(log, seen, events, n - 1);
      OneEventMore(log, seen, events, n);
      AllInsideMore(seen, events, n);
    }
  }

  lemma AllInsideMore(seen: Seen, events: seq<Event>, n: nat)
    requires 0 < n <= |events|
    ensures AllInside(seen, events, n)
            <==> AllInside(seen, events, n - 1) && StartsInside(Reconcile(seen, events[..n - 1]).seen, events[n - 1])
  {
  }

  lemma OneEventMore(log: seq<Action>, seen: Seen, events: seq<Event>, n: nat)
    requires 0 < n <= |events|
    requires TracksLast(log + Reconcile(seen, events[..n - 1]).actions, Reconcile(seen, events[..n - 1]).seen)
    ensures TracksLast(log + Reconcile(seen, events[..n]).actions, Reconcile(seen, events[..n]).seen)
    ensures CarriesOn(log + Reconcile(seen, events[..n]).actions)
            <==> CarriesOn(log + Reconcile(seen, events[..n - 1]).actions)
                 && StartsInside(Reconcile(seen, events[..n - 1]).seen, events[n - 1])
  {
    var before := Reconcile(seen, events[..n - 1]);
    ConsiderIff(log + before.actions, before.seen, events[n - 1]);
    ReconcileStep(seen, events, n);
    var last := Consider(before.seen, events[n - 1]);
    assert (log + before.actions) + last.actions == log + (before.actions + last.actions);
  }

  lemma PurgeTracks(log: seq<Action>, seen: Seen, cutoff: int)
    requires TracksLast(log, seen)
    ensures TracksLast(log, Purge(seen, cutoff))
  {
  }

  /** One window. */
  lemma WindowIff(r: Run, j: nat)
    requires Cut(r) && j < |r.cuts| && Reconciles(r, j) && TracksLast(r.logs[j], r.tracked[j])
    ensures TracksLast(r.logs[j + 1], r.tracked[j + 1])
    ensures CarriesOn(r.logs[j + 1])
            <==> CarriesOn(r.logs[j]) && WindowInside(r, j)
  {
    if r.cuts[j] > 0 {
      var events := r.detections[j];
      assert events[..|events|] == events;
      ReconcileIff(r.logs[j], r.tracked[j], events, |events|);
      PurgeTracks(r.logs[j + 1], Reconcile(r.tracked[j], events).seen, r.stream[r.cuts[j] - 1].time - r.retention);
    }
  }

  /** What holds after n windows. */
  ghost predicate KeysAsTold(r: Run, n: nat)
    requires Cut(r) && n <= |r.cuts|
  {
    TracksLast(r.logs[n], r.tracked[n]) && (CarriesOn(r.logs[n]) <==> NoEarlierExtension(r, n))
  }

  lemma OneWindowMore(r: Run, n: nat)
    requires Cut(r) && n < |r.cuts| && KeysAsTold(r, n) && Reconciles(r, n)
    ensures KeysAsTold(r, n + 1)
  {
    WindowIff(r, n);
    assert NoEarlierExtension(r, n + 1) <==> NoEarlierExtension(r, n) && WindowInside(r, n);
  }

  ghost predicate AllReconcile(r: Run) {
    Cut(r) && forall j {:trigger Reconciles(r, j)} :: 0 <= j < |r.cuts| ==> Reconciles(r, j)
  }

  lemma {:induction false} KeysIff(r: Run, n: nat)
    requires AllReconcile(r) && n <= |r.cuts|
    ensures KeysAsTold(r, n)
  {
    if n > 0 {
      KeysIff(r, n - 1);
      assert Reconciles(r, n - 1);
      OneWindowMore(r, n - 1);
    }
  }

  /**
   Over any run, whatever the stream and the cuts: every update carries the start its incident
   was first reported with if and only if no event that extends a tracked incident starts
   before it.
   */
  lemma KeyStableIff(r: Run)
    requires Valid(r)
    ensures CarriesOn(Emitted(r)) <==> NoEarlierExtension(r, |r.cuts|)
  {
    KeysIff(r, |r.cuts|);
  }
}

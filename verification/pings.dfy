/** Pings, poll buckets, and the overlapping windows consumer.py cuts the stream into. */
module Pings {

  import opened Options

  // Times in milliseconds.
  const SECOND := 1000
  const POLL := 15 * SECOND
  const MIN_CONSECUTIVE := 2
  const OVERLAP := MIN_CONSECUTIVE * POLL
  const WINDOW := 60 * SECOND
  const RETENTION := 10 * WINDOW

  datatype Location = Location(lat: real, lon: real)

  /**
   One telemetry message. Vehicles, trips and routes are known here only by
   their identity and (vehicles) their order, so they are numbered.
   */
  datatype Ping = Ping(
    vehicle: int,
    trip: int,
    route: int,
    time: int,
    location: Option<Location>,
    hasStop: bool,                // stop_id is present
    stopSequence: int,
    stoppedAt: bool)              // current_status == STOPPED_AT

  /** _bucket: the poll-interval grid, floored. */
  function Bucket(time: int): (b: int)
    ensures b <= time < b + POLL && b % POLL == 0
  {
    time - time % POLL
  }

  ghost predicate InOrder(stream: seq<Ping>) {
    forall i, j :: 0 <= i < j < |stream| ==> stream[i].time <= stream[j].time
  }

  /** No vehicle reports twice at one instant. */
  ghost predicate DistinctTimes(stream: seq<Ping>) {
    forall i, j :: 0 <= i < j < |stream| && stream[i].vehicle == stream[j].vehicle ==> stream[i].time != stream[j].time
  }

  lemma SliceIsOrdered(stream: seq<Ping>, lo: nat, hi: nat)
    requires InOrder(stream) && DistinctTimes(stream) && lo <= hi <= |stream|
    ensures InOrder(stream[lo..hi]) && DistinctTimes(stream[lo..hi])
  {
  }

  // ----- PingWindowBuffer

  function MaxTime(rows: seq<Ping>): int
    requires rows != []
  {
    if |rows| == 1 then rows[0].time
    else
      var m := MaxTime(rows[..|rows|-1]);
      if rows[|rows|-1].time > m then rows[|rows|-1].time else m
  }

  function NotBefore(rows: seq<Ping>, cutoff: int): seq<Ping> {
    if rows == [] then []
    else NotBefore(rows[..|rows|-1], cutoff) + (if rows[|rows|-1].time >= cutoff then [rows[|rows|-1]] else [])
  }

  /** What a flush carries forward: the last overlap milliseconds of its frame. */
  function Carry(rows: seq<Ping>, overlap: int): seq<Ping> {
    if rows == [] then [] else NotBefore(rows, MaxTime(rows) - overlap)
  }

  class PingWindowBuffer {
    const overlap: int
    var rows: seq<Ping>

    constructor (overlap: int)
      ensures this.overlap == overlap && rows == []
    {
      this.overlap, rows := overlap, [];
    }

    method Add(p: Ping)
      modifies this
      ensures rows == old(rows) + [p]
    {
      rows := rows + [p];
    }

    /** What arrives between two flushes. */
    method AddAll(pings: seq<Ping>)
      modifies this
      ensures rows == old(rows) + pings
    {
      var i := 0;
      while i < |pings|
        invariant 0 <= i <= |pings| && rows == old(rows) + pings[..i]
      {
        Add(pings[i]);
        i := i + 1;
      }
      assert pings[..i] == pings;
    }

    /** The whole batch of this window; the buffer keeps the overlap for the next. */
    method Flush() returns (frame: seq<Ping>)
      modifies this
      ensures frame == old(rows) && rows == Carry(old(rows), overlap)
    {
      frame := rows;
      if rows == [] { return; }
      var newest := rows[0].time;
      var i := 1;
      while i < |frame|
        invariant 1 <= i <= |frame| && rows == frame && newest == MaxTime(frame[..i])
      {
        assert frame[..i + 1][..i] == frame[..i];
        if frame[i].time > newest {
          newest := frame[i].time;
        }
        i := i + 1;
      }
      assert frame[..|frame|] == frame;
      var kept := [];
      i := 0;
      while i < |frame|
        invariant 0 <= i <= |frame| && kept == NotBefore(frame[..i], newest - overlap)
        invariant frame == old(rows)
      {
        assert frame[..i + 1][..i] == frame[..i];
        if frame[i].time >= newest - overlap {
          kept := kept + [frame[i]];
        }
        i := i + 1;
      }
      assert frame[..|frame|] == frame;
      rows := kept;
    }
  }

  // ----- frames of a whole run

  /** Flush points: how much of the stream has arrived at each flush. */
  ghost predicate Cuts(stream: seq<Ping>, cuts: seq<nat>) {
    && (forall j :: 0 <= j < |cuts| ==> cuts[j] <= |stream|)
    && (forall i, j :: 0 <= i < j < |cuts| ==> cuts[i] <= cuts[j])
  }

  function Arrived(cuts: seq<nat>, j: nat): nat
    requires j <= |cuts|
  {
    if j == 0 then 0 else cuts[j - 1]
  }

  lemma CutsInOrder(stream: seq<Ping>, cuts: seq<nat>, j: nat)
    requires Cuts(stream, cuts) && j < |cuts|
    ensures Arrived(cuts, j) <= cuts[j] <= |stream|
  {
  }

  /** The batch the j-th flush returns: what was carried, and what has arrived since. */
  ghost function Frame(stream: seq<Ping>, cuts: seq<nat>, overlap: int, j: nat): seq<Ping>
    requires Cuts(stream, cuts) && j < |cuts|
  {
    (if j == 0 then [] else Carry(Frame(stream, cuts, overlap, j - 1), overlap)) + stream[Arrived(cuts, j)..cuts[j]]
  }

  /** How many pings at the head of an in-order stream are older than t. */
  function Older(stream: seq<Ping>, t: int): (n: nat)
    ensures n <= |stream|
  {
    if stream == [] || stream[0].time >= t then 0 else 1 + Older(stream[1..], t)
  }

  lemma {:induction false} OlderSplits(stream: seq<Ping>, t: int, i: nat)
    requires InOrder(stream) && i < |stream|
    ensures i < Older(stream, t) <==> stream[i].time < t
  {
    if i > 0 {
      if stream[0].time < t {
        OlderSplits(stream[1..], t, i - 1);
      }
    }
  }

  /** Where the j-th frame begins in the stream. */
  ghost function Start(stream: seq<Ping>, cuts: seq<nat>, overlap: int, j: nat): nat
    requires Cuts(stream, cuts) && j < |cuts|
  {
    var n := Arrived(cuts, j);
    if n == 0 then 0 else Older(stream, stream[n - 1].time - overlap)
  }

  lemma {:induction false} MaxTimeOfSlice(stream: seq<Ping>, lo: nat, hi: nat)
    requires InOrder(stream) && lo < hi <= |stream|
    ensures MaxTime(stream[lo..hi]) == stream[hi - 1].time
  {
    if lo + 1 < hi {
      assert stream[lo..hi][..hi - lo - 1] == stream[lo..hi - 1];
      MaxTimeOfSlice(stream, lo, hi - 1);
    }
  }

  lemma {:induction false} NotBeforeOfSlice(stream: seq<Ping>, lo: nat, hi: nat, cutoff: int)
    requires InOrder(stream) && lo <= hi <= |stream| && lo <= Older(stream, cutoff)
    ensures NotBefore(stream[lo..hi], cutoff)
            == if Older(stream, cutoff) <= hi then stream[Older(stream, cutoff)..hi] else []
  {
    if lo < hi {
      assert stream[lo..hi][..hi - lo - 1] == stream[lo..hi - 1];
      NotBeforeOfSlice(stream, lo, hi - 1, cutoff);
      OlderSplits(stream, cutoff, hi - 1);
    }
  }

  lemma OlderMonotone(stream: seq<Ping>, t: int, u: int)
    requires InOrder(stream) && t <= u
    ensures Older(stream, t) <= Older(stream, u)
  {
    if Older(stream, t) > Older(stream, u) {
      OlderSplits(stream, t, Older(stream, u));
      OlderSplits(stream, u, Older(stream, u));
    }
  }

  lemma CarryOfSlice(stream: seq<Ping>, lo: nat, n: nat, overlap: int)
    requires InOrder(stream) && overlap >= 0 && lo < n <= |stream|
    requires lo <= Older(stream, stream[n - 1].time - overlap)
    ensures Older(stream, stream[n - 1].time - overlap) < n
    ensures Carry(stream[lo..n], overlap) == stream[Older(stream, stream[n - 1].time - overlap)..n]
  {
    var cutoff := stream[n - 1].time - overlap;
    OlderSplits(stream, cutoff, n - 1);
    MaxTimeOfSlice(stream, lo, n);
    NotBeforeOfSlice(stream, lo, n, cutoff);
  }

  /** Each flush drops at least what the flush before it dropped. */
  lemma StartsMove(stream: seq<Ping>, cuts: seq<nat>, overlap: int, j: nat)
    requires InOrder(stream) && Cuts(stream, cuts) && overlap >= 0 && j < |cuts|
    ensures Start(stream, cuts, overlap, j) <= Arrived(cuts, j) <= cuts[j]
    ensures Arrived(cuts, j) > 0 ==> Start(stream, cuts, overlap, j) < Arrived(cuts, j)
    ensures j > 0 ==> Start(stream, cuts, overlap, j - 1) <= Start(stream, cuts, overlap, j)
  {
    var n := Arrived(cuts, j);
    if n > 0 {
      OlderSplits(stream, stream[n - 1].time - overlap, n - 1);
      if j > 0 && Arrived(cuts, j - 1) > 0 {
        OlderMonotone(stream, stream[Arrived(cuts, j - 1) - 1].time - overlap, stream[n - 1].time - overlap);
      }
    }
  }

  lemma Joined(stream: seq<Ping>, a: nat, b: nat, c: nat)
    requires a <= b <= c <= |stream|
    ensures stream[a..b] + stream[b..c] == stream[a..c]
  {
  }

  /** A carried slice and what arrived after it are one slice again. */
  lemma CarriedOn(stream: seq<Ping>, lo: nat, n: nat, hi: nat, overlap: int)
    requires InOrder(stream) && overlap >= 0 && lo < n <= hi <= |stream|
    requires lo <= Older(stream, stream[n - 1].time - overlap)
    ensures Older(stream, stream[n - 1].time - overlap) < n
    ensures Carry(stream[lo..n], overlap) + stream[n..hi] == stream[Older(stream, stream[n - 1].time - overlap)..hi]
  {
    CarryOfSlice(stream, lo, n, overlap);
    Joined(stream, Older(stream, stream[n - 1].time - overlap), n, hi);
  }

  lemma FrameStep(stream: seq<Ping>, cuts: seq<nat>, overlap: int, j: nat, lo: nat)
    requires InOrder(stream) && Cuts(stream, cuts) && overlap >= 0 && 0 < j < |cuts|
    requires Arrived(cuts, j) > 0 && lo < Arrived(cuts, j)
    requires lo <= Older(stream, stream[Arrived(cuts, j) - 1].time - overlap)
    requires Frame(stream, cuts, overlap, j - 1) == stream[lo..Arrived(cuts, j)]
    ensures Start(stream, cuts, overlap, j) <= cuts[j]
    ensures Frame(stream, cuts, overlap, j) == stream[Start(stream, cuts, overlap, j)..cuts[j]]
  {
    CarriedOn(stream, lo, Arrived(cuts, j), cuts[j], overlap);
  }

  lemma FrameBegins(stream: seq<Ping>, cuts: seq<nat>, overlap: int, j: nat)
    requires Cuts(stream, cuts) && j < |cuts| && Arrived(cuts, j) == 0
    requires j > 0 ==> Frame(stream, cuts, overlap, j - 1) == []
    ensures Frame(stream, cuts, overlap, j) == stream[..cuts[j]]
  {
  }

  lemma FrameNext(stream: seq<Ping>, cuts: seq<nat>, overlap: int, j: nat)
    requires InOrder(stream) && Cuts(stream, cuts) && overlap >= 0 && 0 < j < |cuts|
    requires Start(stream, cuts, overlap, j - 1) <= cuts[j - 1]
    requires Frame(stream, cuts, overlap, j - 1) == stream[Start(stream, cuts, overlap, j - 1)..cuts[j - 1]]
    ensures Start(stream, cuts, overlap, j) <= cuts[j]
    ensures Frame(stream, cuts, overlap, j) == stream[Start(stream, cuts, overlap, j)..cuts[j]]
  {
    StartsMove(stream, cuts, overlap, j);
    StartsMove(stream, cuts, overlap, j - 1);
    if cuts[j - 1] == 0 {
      FrameBegins(stream, cuts, overlap, j);
    } else {
      FrameStep(stream, cuts, overlap, j, Start(stream, cuts, overlap, j - 1));
    }
  }

  /** Every frame is a contiguous stretch of the stream, up to all that has arrived. */
  lemma {:induction false} FrameIsSlice(stream: seq<Ping>, cuts: seq<nat>, overlap: int, j: nat)
    requires InOrder(stream) && Cuts(stream, cuts) && overlap >= 0 && j < |cuts|
    ensures Start(stream, cuts, overlap, j) <= cuts[j]
    ensures Frame(stream, cuts, overlap, j) == stream[Start(stream, cuts, overlap, j)..cuts[j]]
  {
    if j == 0 {
      FrameBegins(stream, cuts, overlap, 0);
    } else {
      FrameIsSlice(stream, cuts, overlap, j - 1);
      FrameNext(stream, cuts, overlap, j);
    }
  }

  /** The frame's beginning, read as a time: exactly the pings older than the cutoff are left out. */
  lemma StartIsCutoff(stream: seq<Ping>, cuts: seq<nat>, overlap: int, j: nat, i: nat)
    requires InOrder(stream) && Cuts(stream, cuts) && overlap >= 0 && j < |cuts| && i < |stream|
    requires Arrived(cuts, j) > 0
    ensures i < Start(stream, cuts, overlap, j) <==> stream[i].time < stream[Arrived(cuts, j) - 1].time - overlap
  {
    OlderSplits(stream, stream[Arrived(cuts, j) - 1].time - overlap, i);
  }
}

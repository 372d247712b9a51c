/** schedule_deviation.py: resolve_scheduled_datetime, across daylight-saving changes. */
module ServiceDay {

  // Times in milliseconds.
  const MINUTE := 60 * 1000
  const HOUR := 60 * MINUTE
  const GATE := 30 * MINUTE      // MAX_DEVIATION_SECONDS
  const REACH := 35 * HOUR + 30 * MINUTE

  /**
   The agency's calendar: noon of every service day. Noons are a day apart, give or
   take the hour of a clock change.
   */
  ghost predicate IsCalendar(noon: int -> int) {
    forall d, e :: e == d + 1 ==> 23 * HOUR <= noon(e) - noon(d) <= 25 * HOUR
  }

  /** t falls on local date d: clocks change at night, so the midnight after a noon is 12 hours on. */
  predicate OnDate(noon: int -> int, t: int, d: int) {
    noon(d - 1) + 12 * HOUR <= t < noon(d) + 12 * HOUR
  }

  /** A scheduled offset on a service day: noon minus 12 hours, plus the offset. */
  function Candidate(noon: int -> int, day: int, offset: int): int {
    noon(day) - 43_200_000 + offset
  }

  function Away(c: int, t: int): nat {
    if c < t then t - c else c - t
  }

  /** The previous, same and next service day, in that order; the first of the nearest wins. */
  function Resolved(noon: int -> int, d: int, t: int, offset: int): int {
    var a, b, c := Candidate(noon, d - 1, offset), Candidate(noon, d, offset), Candidate(noon, d + 1, offset);
    var best := if Away(b, t) < Away(a, t) then b else a;
    if Away(c, t) < Away(best, t) then c else best
  }

  method Resolve(noon: int -> int, d: int, t: int, offset: int) returns (scheduled: int)
    ensures scheduled == Resolved(noon, d, t, offset)
  {
    var candidates := [];
    var delta := -1;
    while delta <= 1
      invariant -1 <= delta <= 2 && |candidates| == delta + 1
      invariant forall k :: 0 <= k < |candidates| ==> candidates[k] == Candidate(noon, d - 1 + k, offset)
    {
      var anchor := noon(d + delta) - 12 * HOUR;
      candidates := candidates + [anchor + offset];
      delta := delta + 1;
    }
    scheduled := candidates[0];
    var i := 1;
    while i < |candidates|
      invariant 1 <= i <= 3
      invariant i == 1 ==> scheduled == candidates[0]
      invariant i == 2 ==> scheduled == if Away(candidates[1], t) < Away(candidates[0], t) then candidates[1] else candidates[0]
      invariant i == 3 ==> scheduled == Resolved(noon, d, t, offset)
    {
      if Away(candidates[i], t) < Away(scheduled, t) {
        scheduled := candidates[i];
      }
      i := i + 1;
    }
  }

  lemma {:induction false} NoonsApart(noon: int -> int, d: int, e: int)
    requires IsCalendar(noon) && d <= e
    ensures 23 * HOUR * (e - d) <= noon(e) - noon(d) <= 25 * HOUR * (e - d)
    decreases e - d
  {
    if d < e {
      NoonsApart(noon, d, e - 1);
      assert noon(e) - noon(e - 1) <= 25 * HOUR;
    }
  }

  /** Every moment is on exactly one date of the calendar. */
  lemma DateIsUnique(noon: int -> int, t: int, d: int, e: int)
    requires IsCalendar(noon) && OnDate(noon, t, d) && OnDate(noon, t, e)
    ensures d == e
  {
    if d < e {
      NoonsApart(noon, d, e - 1);
    } else if e < d {
      NoonsApart(noon, e, d - 1);
    }
  }

  lemma ResolvedIsNearest(noon: int -> int, d: int, t: int, offset: int)
    ensures Away(Resolved(noon, d, t, offset), t) <= Away(Candidate(noon, d - 1, offset), t)
    ensures Away(Resolved(noon, d, t, offset), t) <= Away(Candidate(noon, d, offset), t)
    ensures Away(Resolved(noon, d, t, offset), t) <= Away(Candidate(noon, d + 1, offset), t)
  {
  }

  /** The previous day's candidate is no farther than any day's before it. */
  lemma EarlierIsFarther(noon: int -> int, d: int, t: int, offset: int, e: int)
    requires IsCalendar(noon) && OnDate(noon, t, d) && 0 <= offset <= REACH && e < d - 1
    ensures Away(Candidate(noon, d - 1, offset), t) <= Away(Candidate(noon, e, offset), t)
  {
    NoonsApart(noon, e, d - 1);
  }

  /** The next day's candidate is no farther than any day's after it. */
  lemma LaterIsFarther(noon: int -> int, d: int, t: int, offset: int, e: int)
    requires IsCalendar(noon) && OnDate(noon, t, d) && 0 <= offset <= REACH && e > d + 1
    ensures Away(Candidate(noon, d + 1, offset), t) <= Away(Candidate(noon, e, offset), t)
  {
    NoonsApart(noon, d + 1, e);
    assert noon(d + 1) - noon(d) >= 23 * HOUR;
  }

  /** Nothing before or after the three candidates is nearer, as long as the offset does not reach too far. */
  lemma NearestOfAll(noon: int -> int, d: int, t: int, offset: int, e: int)
    requires IsCalendar(noon) && OnDate(noon, t, d) && 0 <= offset <= REACH
    ensures Away(Resolved(noon, d, t, offset), t) <= Away(Candidate(noon, e, offset), t)
  {
    ResolvedIsNearest(noon, d, t, offset);
    if e < d - 1 {
      EarlierIsFarther(noon, d, t, offset, e);
    } else if e > d + 1 {
      LaterIsFarther(noon, d, t, offset, e);
    }
  }

  /** The deviation never exceeds half the longest day. */
  lemma DeviationBounded(noon: int -> int, d: int, t: int, offset: int)
    requires IsCalendar(noon) && OnDate(noon, t, d) && 0 <= offset <= REACH
    ensures Away(Resolved(noon, d, t, offset), t) <= 12 * HOUR + 30 * MINUTE
  {
    assert noon(d) - noon(d - 1) <= 25 * HOUR;
    assert 23 * HOUR <= noon(d + 1) - noon(d) <= 25 * HOUR;
  }

  lemma ResolvedIsCandidate(noon: int -> int, d: int, t: int, offset: int) returns (k: int)
    ensures d - 1 <= k <= d + 1 && Resolved(noon, d, t, offset) == Candidate(noon, k, offset)
  {
    k := if Resolved(noon, d, t, offset) == Candidate(noon, d - 1, offset) then d - 1
         else if Resolved(noon, d, t, offset) == Candidate(noon, d, offset) then d else d + 1;
  }

  lemma CandidatesApart(noon: int -> int, offset: int, j: int, k: int)
    requires IsCalendar(noon) && j != k
    ensures Away(Candidate(noon, j, offset), Candidate(noon, k, offset)) >= 23 * HOUR
  {
    NoonsApart(noon, if j < k then j else k, if j < k then k else j);
  }

  /** A service day less than eleven and a half hours off is the one chosen. */
  lemma TrueDayIsChosen(noon: int -> int, d: int, t: int, offset: int, day: int)
    requires IsCalendar(noon) && OnDate(noon, t, d) && 0 <= offset <= REACH
    requires Away(Candidate(noon, day, offset), t) < 11 * HOUR + 30 * MINUTE
    ensures Resolved(noon, d, t, offset) == Candidate(noon, day, offset)
  {
    NearestOfAll(noon, d, t, offset, day);
    var k := ResolvedIsCandidate(noon, d, t, offset);
    if k != day {
      CandidatesApart(noon, offset, k, day);
    }
  }

  /** The gate lets a deviation through if and only if some service day at all is within 30 minutes. */
  lemma GatePassesIff(noon: int -> int, d: int, t: int, offset: int)
    requires IsCalendar(noon) && OnDate(noon, t, d) && 0 <= offset <= REACH
    ensures Away(Resolved(noon, d, t, offset), t) <= GATE
            <==> exists day :: Away(Candidate(noon, day, offset), t) <= 1_800_000
  {
    if day :| Away(Candidate(noon, day, offset), t) <= 1_800_000 {
      NearestOfAll(noon, d, t, offset, day);
    }
    var k := ResolvedIsCandidate(noon, d, t, offset);
  }

  /** How far apart two moments are. */
  ghost function Apart(a: int, b: int): nat {
    if a <= b then b - a else a - b
  }

  /** The offset's moment on some service day, and on none is it nearer to t. */
  ghost predicate IsNearest(noon: int -> int, t: int, offset: int, at: int) {
    && (exists day :: at == noon(day) - 43_200_000 + offset)
    && (forall day :: Apart(at, t) <= Apart(noon(day) - 43_200_000 + offset, t))
  }

  /** What is resolved is nearest; and if it is within 30 minutes nothing else is. */
  lemma ResolvedIsIt(noon: int -> int, d: int, t: int, offset: int, at: int)
    requires IsCalendar(noon) && OnDate(noon, t, d) && 0 <= offset <= 127_800_000
    ensures IsNearest(noon, t, offset, Resolved(noon, d, t, offset))
    ensures IsNearest(noon, t, offset, at) && Apart(at, t) <= 1_800_000 ==> at == Resolved(noon, d, t, offset)
  {
    var resolved := Resolved(noon, d, t, offset);
    var k := ResolvedIsCandidate(noon, d, t, offset);
    assert resolved == noon(k) - 43_200_000 + offset;
    forall day ensures Apart(resolved, t) <= Apart(noon(day) - 43_200_000 + offset, t) {
      NearestOfAll(noon, d, t, offset, day);
    }
    if IsNearest(noon, t, offset, at) && Apart(at, t) <= 1_800_000 {
      var day :| at == noon(day) - 43_200_000 + offset;
      TrueDayIsChosen(noon, d, t, offset, day);
    }
  }

  /** A calendar whose day 0 came an hour early. */
  function SpringForward(day: int): int {
    24 * HOUR * day - (if day >= 0 then HOUR else 0)
  }

  /** Beyond that reach the three candidates are not enough. */
  lemma FartherOffsetsMiss(offset: int)
    requires offset > REACH
    ensures IsCalendar(SpringForward)
    ensures var t := SpringForward(0) + 12 * HOUR;
            OnDate(SpringForward, t, 1)
            && Away(Candidate(SpringForward, -1, offset), t) < Away(Resolved(SpringForward, 1, t, offset), t)
  {
  }

  /** The three candidates hold the nearest service day for every calendar and moment exactly up to 35 h 30 min. */
  lemma ReachIsExact(offset: nat)
    ensures offset <= 127_800_000 <==>
            forall noon: int -> int, d, t, e :: IsCalendar(noon) && OnDate(noon, t, d) ==>
              Away(Resolved(noon, d, t, offset), t) <= Away(Candidate(noon, e, offset), t)
  {
    if offset <= REACH {
      forall noon: int -> int, d, t, e | IsCalendar(noon) && OnDate(noon, t, d)
        ensures Away(Resolved(noon, d, t, offset), t) <= Away(Candidate(noon, e, offset), t)
      {
        NearestOfAll(noon, d, t, offset, e);
      }
    } else {
      FartherOffsetsMiss(offset);
      var noon, t := SpringForward, SpringForward(0) + 12 * HOUR;
      assert IsCalendar(noon) && OnDate(noon, t, 1);
      assert Away(Candidate(noon, -1, offset), t) < Away(Resolved(noon, 1, t, offset), t);
    }
  }
}

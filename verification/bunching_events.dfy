/** bunching.py: detect_bunching_events, and what a run of close buckets is. */
module BunchingEvents {
  import opened Options
  import opened Pings
  import opened Bunching

  const TOLERANCE := 2   // CONSECUTIVE_TOLERANCE_FACTOR

  datatype Event = Event(key: Key, start: int, end: int, count: nat, minDistance: real)

  /** The buckets in which a table lists a pair. */
  function Buckets(pairs: seq<Pair>, key: Key): set<int> {
    set p | p in pairs && p.key == key :: p.bucket
  }

  /** None where detection has no separation data at all. */
  function Breaks(separated: Option<seq<Pair>>, key: Key): Option<set<int>> {
    match separated
    case None => None
    case Some(pairs) => Some(Buckets(pairs, key))
  }

  // ----- runs over a set of buckets

  /** t and u are neighbours among the buckets c. */
  ghost predicate Next(c: set<int>, t: int, u: int) {
    t in c && u in c && t < u && forall v :: v in c ==> v <= t || u <= v
  }

  /** A poll apart; or, where separation is known, up to two polls with no far sighting in between. */
  ghost predicate Link(s: Option<set<int>>, t: int, u: int) {
    || u - t == 15_000
    || (s.Some? && u - t <= 30_000 && forall v :: v in s.value ==> v <= t || u <= v)
  }

  ghost predicate IsRun(c: set<int>, s: Option<set<int>>, b: int, e: int) {
    b in c && e in c && b <= e && forall t, u :: Next(c, t, u) && b <= t && u <= e ==> Link(s, t, u)
  }

  ghost predicate IsMaximal(c: set<int>, s: Option<set<int>>, b: int, e: int) {
    && IsRun(c, s, b, e)
    && (forall t :: Next(c, t, b) ==> !Link(s, t, b))
    && (forall u :: Next(c, e, u) ==> !Link(s, e, u))
  }

  ghost function Span(c: set<int>, b: int, e: int): set<int> {
    set t | t in c && b <= t <= e
  }

  lemma {:induction false} Predecessor(c: set<int>, b: int, v: int) returns (t: int)
    requires b in c && v in c && v < b
    ensures Next(c, t, b) && v <= t
    decreases b - v
  {
    t := v;
    if w :| w in c && v < w < b {
      t := Predecessor(c, b, w);
    }
  }

  lemma {:induction false} Successor(c: set<int>, e: int, v: int) returns (u: int)
    requires e in c && v in c && e < v
    ensures Next(c, e, u) && u <= v
    decreases v - e
  {
    u := v;
    if w :| w in c && e < w < v {
      u := Successor(c, e, w);
    }
  }

  lemma {:induction false} Bounds(c: set<int>) returns (lo: int, hi: int)
    ensures forall v :: v in c ==> lo <= v <= hi
    decreases |c|
  {
    lo, hi := 0, 0;
    if x :| x in c {
      var l, h := Bounds(c - {x});
      lo, hi := if x < l then x else l, if x > h then x else h;
      forall v | v in c ensures lo <= v <= hi {
        assert v == x || v in c - {x};
      }
    }
  }

  lemma {:induction false} ExtendWithin(c: set<int>, s: Option<set<int>>, b: int, e: int, lo: int, hi: int)
    returns (b': int, e': int)
    requires IsRun(c, s, b, e) && forall v :: v in c ==> lo <= v <= hi
    ensures IsMaximal(c, s, b', e') && b' <= b && e <= e'
    decreases (b - lo) + (hi - e)
  {
    b', e' := b, e;
    if t :| Next(c, t, b) && Link(s, t, b) {
      b', e' := ExtendWithin(c, s, t, e, lo, hi);
    } else if u :| Next(c, e, u) && Link(s, e, u) {
      b', e' := ExtendWithin(c, s, b, u, lo, hi);
    }
  }

  /** Every run lies in a maximal one. */
  lemma ExtendRun(c: set<int>, s: Option<set<int>>, b: int, e: int) returns (b': int, e': int)
    requires IsRun(c, s, b, e)
    ensures IsMaximal(c, s, b', e') && b' <= b && e <= e'
  {
    var lo, hi := Bounds(c);
    b', e' := ExtendWithin(c, s, b, e, lo, hi);
  }

  /** A run that meets a maximal one lies in it. */
  lemma MaximalHolds(c: set<int>, s: Option<set<int>>, b: int, e: int, b': int, e': int)
    requires IsMaximal(c, s, b, e) && IsRun(c, s, b', e')
    ensures (b <= b' && e' <= e) || e' < b || e < b'
  {
    if b' <= e && b <= e' {
      if b' < b {
        var t := Predecessor(c, b, b');
      }
      if e < e' {
        var u := Successor(c, e, e');
      }
    }
  }

  /** Maximal is largest: no run of the buckets properly contains it. */
  lemma MaximalIsLargest(c: set<int>, s: Option<set<int>>, b: int, e: int)
    requires IsRun(c, s, b, e)
    ensures IsMaximal(c, s, b, e)
            <==> forall b', e' :: IsRun(c, s, b', e') && b' <= b && e <= e' ==> b' == b && e' == e
  {
    if IsMaximal(c, s, b, e) {
      forall b', e' | IsRun(c, s, b', e') && b' <= b && e <= e' ensures b' == b && e' == e {
        MaximalHolds(c, s, b, e, b', e');
      }
    } else {
      var b', e' := ExtendRun(c, s, b, e);
    }
  }

  // ----- what detection promises

  /** The smallest of the distances of the pair between two buckets. */
  ghost predicate IsClosest(close: seq<Pair>, key: Key, b: int, e: int, d: real) {
    && (exists p :: p in close && p.key == key && b <= p.bucket <= e && p.distance == d)
    && (forall p :: p in close && p.key == key && b <= p.bucket <= e ==> d <= p.distance)
  }

  ghost predicate IsLasting(close: seq<Pair>, separated: Option<seq<Pair>>, least: nat, key: Key, b: int, e: int) {
    IsMaximal(Buckets(close, key), Breaks(separated, key), b, e) && |Span(Buckets(close, key), b, e)| >= least
  }

  ghost predicate Describes(close: seq<Pair>, separated: Option<seq<Pair>>, least: nat, ev: Event) {
    && IsLasting(close, separated, least, ev.key, ev.start, ev.end)
    && ev.count == |Span(Buckets(close, ev.key), ev.start, ev.end)|
    && IsClosest(close, ev.key, ev.start, ev.end, ev.minDistance)
  }

  ghost predicate Reports(events: seq<Event>, key: Key, b: int, e: int) {
    exists ev :: ev in events && ev.key == key && ev.start == b && ev.end == e
  }

  /** The events of one pair come in order and do not overlap. */
  ghost predicate InSequence(events: seq<Event>) {
    forall i, j :: 0 <= i < j < |events| && events[i].key == events[j].key ==> events[i].end < events[j].start
  }

  /** Exactly the maximal runs that last, once each. */
  ghost predicate Detects(close: seq<Pair>, separated: Option<seq<Pair>>, least: nat, events: seq<Event>) {
    && (forall ev :: ev in events ==> Describes(close, separated, least, ev))
    && (forall key, b, e :: IsLasting(close, separated, least, key, b, e) ==> Reports(events, key, b, e))
    && InSequence(events)
  }

  // ----- sorting the table

  predicate KeyLess(x: Key, y: Key) {
    || x.route < y.route
    || (x.route == y.route && (x.direction < y.direction
                               || (x.direction == y.direction && (x.a < y.a || (x.a == y.a && x.b < y.b)))))
  }

  /** The order of sort_values. */
  predicate Before(p: Pair, q: Pair) {
    KeyLess(p.key, q.key) || (p.key == q.key && p.bucket < q.bucket)
  }

  ghost predicate Apart(pairs: seq<Pair>) {
    forall i, j :: 0 <= i < j < |pairs| ==> pairs[i].key != pairs[j].key || pairs[i].bucket != pairs[j].bucket
  }

  ghost predicate Sorted(pairs: seq<Pair>) {
    forall i, j :: 0 <= i < j < |pairs| ==> Before(pairs[i], pairs[j])
  }

  function InsertPair(pairs: seq<Pair>, p: Pair): seq<Pair> {
    if pairs == [] || Before(p, pairs[0]) then [p] + pairs else [pairs[0]] + InsertPair(pairs[1..], p)
  }

  function SortPairs(pairs: seq<Pair>): seq<Pair> {
    if pairs == [] then [] else InsertPair(SortPairs(pairs[..|pairs|-1]), pairs[|pairs|-1])
  }

  lemma {:induction false} InsertSorts(pairs: seq<Pair>, p: Pair)
    requires Sorted(pairs) && forall q :: q in pairs ==> p.key != q.key || p.bucket != q.bucket
    ensures Sorted(InsertPair(pairs, p))
    ensures forall q :: q in InsertPair(pairs, p) <==> q == p || q in pairs
  {
    if pairs != [] && !Before(p, pairs[0]) {
      assert pairs == [pairs[0]] + pairs[1..];
      InsertSorts(pairs[1..], p);
      var tail := InsertPair(pairs[1..], p);
      forall k | 0 <= k < |tail| ensures Before(pairs[0], tail[k]) {
        assert tail[k] in tail;
      }
    }
  }

  lemma {:induction false} SortPairsSorts(pairs: seq<Pair>)
    requires Apart(pairs)
    ensures Sorted(SortPairs(pairs))
    ensures forall q :: q in SortPairs(pairs) <==> q in pairs
  {
    if pairs != [] {
      var n := |pairs| - 1;
      SortPairsSorts(pairs[..n]);
      InsertSorts(SortPairs(pairs[..n]), pairs[n]);
      assert pairs == pairs[..n] + [pairs[n]];
    }
  }

  /** In the order of sort_values, however equal rows lie. */
  ghost predicate InRowOrder(pairs: seq<Pair>) {
    forall i, j :: 0 <= i < j < |pairs| ==> !Before(pairs[j], pairs[i])
  }

  ghost predicate SortedVersion(rows: seq<Pair>, close: seq<Pair>) {
    InRowOrder(rows) && multiset(rows) == multiset(close)
  }

  lemma BeforeIsOrder(p: Pair, q: Pair, r: Pair)
    ensures !Before(q, p) && !Before(r, q) ==> !Before(r, p)
  {
  }

  lemma {:induction false} InsertKeepsOrder(pairs: seq<Pair>, p: Pair)
    requires InRowOrder(pairs)
    ensures InRowOrder(InsertPair(pairs, p)) && multiset(InsertPair(pairs, p)) == multiset(pairs) + multiset{p}
  {
    if pairs == [] {
    } else if Before(p, pairs[0]) {
      forall j | 0 <= j < |pairs| ensures !Before(pairs[j], p) {
        BeforeIsOrder(p, pairs[0], pairs[j]);
      }
    } else {
      assert pairs == [pairs[0]] + pairs[1..];
      InsertKeepsOrder(pairs[1..], p);
      var tail := InsertPair(pairs[1..], p);
      forall k | 0 <= k < |tail| ensures !Before(tail[k], pairs[0]) {
        assert tail[k] in multiset(tail);
        if tail[k] != p {
          assert tail[k] in pairs[1..];
        }
      }
    }
  }

  lemma {:induction false} SortPairsIsSorted(pairs: seq<Pair>)
    ensures SortedVersion(SortPairs(pairs), pairs)
  {
    if pairs != [] {
      var n := |pairs| - 1;
      SortPairsIsSorted(pairs[..n]);
      InsertKeepsOrder(SortPairs(pairs[..n]), pairs[n]);
      assert pairs == pairs[..n] + [pairs[n]];
    }
  }

  // ----- one group of the table

  /** The rows of one pair, by bucket. */
  ghost predicate IsGroup(group: seq<Pair>, key: Key) {
    && (forall i :: 0 <= i < |group| ==> group[i].key == key)
    && (forall i, j :: 0 <= i < j < |group| ==> group[i].bucket < group[j].bucket)
  }

  function Times(group: seq<Pair>): set<int> {
    set p | p in group :: p.bucket
  }

  /** Rows lo to hi are one unbroken stretch that cannot grow. */
  ghost predicate Stretch(group: seq<Pair>, s: Option<set<int>>, lo: nat, hi: nat) {
    && lo <= hi < |group|
    && (forall k :: lo < k <= hi ==> Linked(group, s, k))
    && (lo > 0 ==> !Linked(group, s, lo))
    && (hi + 1 < |group| ==> !Linked(group, s, hi + 1))
  }

  ghost predicate Linked(group: seq<Pair>, s: Option<set<int>>, k: int)
    requires 0 < k < |group|
  {
    Link(s, group[k - 1].bucket, group[k].bucket)
  }

  function MinDistance(run: seq<Pair>): (d: real)
    requires run != []
    ensures exists p :: p in run && p.distance == d
    ensures forall p :: p in run ==> d <= p.distance
  {
    var n := |run| - 1;
    if n == 0 then
      assert run[0] in run;
      run[0].distance
    else
      assert run == run[..n] + [run[n]];
      assert run[n] in run;
      var d := MinDistance(run[..n]);
      if run[n].distance < d then run[n].distance else d
  }

  function EventOf(group: seq<Pair>, lo: nat, hi: nat): Event
    requires lo <= hi < |group|
  {
    Event(group[lo].key, group[lo].bucket, group[hi].bucket, hi - lo + 1, MinDistance(group[lo..hi + 1]))
  }

  lemma NextLinks(group: seq<Pair>, key: Key, k: nat)
    requires IsGroup(group, key) && 0 < k < |group|
    ensures Next(Times(group), group[k - 1].bucket, group[k].bucket)
  {
    assert group[k - 1] in group && group[k] in group;
    forall v | v in Times(group) ensures v <= group[k - 1].bucket || group[k].bucket <= v {
      var m := RowAt(group, v);
    }
  }

  lemma RowAt(group: seq<Pair>, t: int) returns (i: nat)
    requires t in Times(group)
    ensures i < |group| && group[i].bucket == t
  {
    var p :| p in group && p.bucket == t;
    i :| 0 <= i < |group| && group[i] == p;
  }

  lemma NeighbourRows(group: seq<Pair>, key: Key, t: int, u: int) returns (k: nat)
    requires IsGroup(group, key) && Next(Times(group), t, u)
    ensures 0 < k < |group| && group[k - 1].bucket == t && group[k].bucket == u
  {
    var i := RowAt(group, t);
    k := RowAt(group, u);
    assert i < k;
    assert group[k - 1] in group;
    assert group[k - 1].bucket in Times(group);
  }

  ghost function Size(group: seq<Pair>, lo: nat, hi: nat): nat
    requires lo <= hi < |group|
  {
    |Span(Times(group), group[lo].bucket, group[hi].bucket)|
  }

  lemma SpanGrows(group: seq<Pair>, key: Key, lo: nat, hi: nat)
    requires IsGroup(group, key) && lo < hi < |group|
    ensures Size(group, lo, hi) == Size(group, lo, hi - 1) + 1
  {
    assert group[hi] in group;
    var span, rest := Span(Times(group), group[lo].bucket, group[hi].bucket), Span(Times(group), group[lo].bucket, group[hi - 1].bucket);
    forall t | t in span && t != group[hi].bucket ensures t <= group[hi - 1].bucket {
      var m := RowAt(group, t);
    }
    assert span == rest + {group[hi].bucket};
  }

  lemma {:induction false} SpanSize(group: seq<Pair>, key: Key, lo: nat, hi: nat)
    requires IsGroup(group, key) && lo <= hi < |group|
    ensures Size(group, lo, hi) == hi - lo + 1
  {
    if lo == hi {
      assert group[hi] in group;
      assert Span(Times(group), group[lo].bucket, group[hi].bucket) == {group[hi].bucket};
    } else {
      SpanSize(group, key, lo, hi - 1);
      SpanGrows(group, key, lo, hi);
    }
  }

  lemma StretchIsRun(group: seq<Pair>, key: Key, s: Option<set<int>>, lo: nat, hi: nat)
    requires IsGroup(group, key) && Stretch(group, s, lo, hi)
    ensures IsRun(Times(group), s, group[lo].bucket, group[hi].bucket)
  {
    var c, b, e := Times(group), group[lo].bucket, group[hi].bucket;
    assert group[lo] in group && group[hi] in group;
    forall t, u | Next(c, t, u) && b <= t && u <= e ensures Link(s, t, u) {
      var k := NeighbourRows(group, key, t, u);
      assert lo < k <= hi;
      assert Linked(group, s, k);
    }
  }

  /** The stretches of the sorted group are the maximal runs of its buckets. */
  lemma StretchIsMaximal(group: seq<Pair>, key: Key, s: Option<set<int>>, lo: nat, hi: nat)
    requires IsGroup(group, key) && Stretch(group, s, lo, hi)
    ensures IsMaximal(Times(group), s, group[lo].bucket, group[hi].bucket)
  {
    var c, b, e := Times(group), group[lo].bucket, group[hi].bucket;
    StretchIsRun(group, key, s, lo, hi);
    forall t | Next(c, t, b) ensures !Link(s, t, b) {
      var k := NeighbourRows(group, key, t, b);
      assert k == lo;
    }
    forall u | Next(c, e, u) ensures !Link(s, e, u) {
      var k := NeighbourRows(group, key, e, u);
      assert k == hi + 1;
    }
  }

  lemma MaximalIsStretch(group: seq<Pair>, key: Key, s: Option<set<int>>, b: int, e: int) returns (lo: nat, hi: nat)
    requires IsGroup(group, key) && IsMaximal(Times(group), s, b, e)
    ensures Stretch(group, s, lo, hi) && group[lo].bucket == b && group[hi].bucket == e
  {
    lo := RowAt(group, b);
    hi := RowAt(group, e);
    forall k | lo < k <= hi ensures Linked(group, s, k) {
      NextLinks(group, key, k);
    }
    if lo > 0 {
      NextLinks(group, key, lo);
    }
    if hi + 1 < |group| {
      NextLinks(group, key, hi + 1);
    }
  }

  /** The events of the stretches that end before a row, and nothing else. */
  ghost predicate Collected(group: seq<Pair>, s: Option<set<int>>, least: nat, events: seq<Event>, end: nat) {
    && (forall ev :: ev in events ==> exists lo: nat, hi: nat :: IsLong(group, s, least, lo, hi, end) && ev == EventOf(group, lo, hi))
    && (forall lo: nat, hi: nat :: IsLong(group, s, least, lo, hi, end) ==> EventOf(group, lo, hi) in events)
    && InSequence(events)
  }

  ghost predicate IsLong(group: seq<Pair>, s: Option<set<int>>, least: nat, lo: nat, hi: nat, end: nat) {
    Stretch(group, s, lo, hi) && hi - lo + 1 >= least && hi < end
  }

  lemma StretchesMeet(group: seq<Pair>, s: Option<set<int>>, lo: nat, hi: nat, lo': nat, hi': nat)
    requires Stretch(group, s, lo, hi) && Stretch(group, s, lo', hi') && lo <= hi' && lo' <= hi
    ensures lo == lo' && hi == hi'
  {
  }

  lemma CollectAll(group: seq<Pair>, s: Option<set<int>>, least: nat, events: seq<Event>, lo: nat, hi: nat, lo': nat, hi': nat)
    requires Stretch(group, s, lo, hi) && Collected(group, s, least, events, lo)
    requires IsLong(group, s, least, lo', hi', hi + 1)
    ensures EventOf(group, lo', hi') in events || (lo' == lo && hi' == hi)
  {
    if hi' < lo {
      assert IsLong(group, s, least, lo', hi', lo);
    } else {
      StretchesMeet(group, s, lo, hi, lo', hi');
    }
  }

  lemma CollectOnly(group: seq<Pair>, s: Option<set<int>>, least: nat, events: seq<Event>, lo: nat, hi: nat, ev: Event)
    returns (lo': nat, hi': nat)
    requires lo <= hi && Collected(group, s, least, events, lo) && ev in events
    ensures IsLong(group, s, least, lo', hi', hi + 1) && hi' < lo && ev == EventOf(group, lo', hi')
  {
    lo', hi' :| IsLong(group, s, least, lo', hi', lo) && ev == EventOf(group, lo', hi');
  }

  lemma CollectStretch(group: seq<Pair>, key: Key, s: Option<set<int>>, least: nat, events: seq<Event>, lo: nat, hi: nat, more: seq<Event>)
    requires IsGroup(group, key) && Stretch(group, s, lo, hi) && Collected(group, s, least, events, lo)
    requires more == events + (if hi - lo + 1 >= least then [EventOf(group, lo, hi)] else [])
    ensures Collected(group, s, least, more, hi + 1)
  {
    forall lo': nat, hi': nat | IsLong(group, s, least, lo', hi', hi + 1) ensures EventOf(group, lo', hi') in more {
      CollectAll(group, s, least, events, lo, hi, lo', hi');
    }
    forall ev | ev in more
      ensures exists lo': nat, hi': nat :: IsLong(group, s, least, lo', hi', hi + 1) && ev == EventOf(group, lo', hi')
    {
      if ev in events {
        var lo', hi' := CollectOnly(group, s, least, events, lo, hi, ev);
      } else {
        assert IsLong(group, s, least, lo, hi, hi + 1);
      }
    }
    forall i | 0 <= i < |events| ensures events[i].end < group[lo].bucket {
      var lo', hi' := CollectOnly(group, s, least, events, lo, hi, events[i]);
    }
  }

  // ----- the loops

  function InsertTime(times: seq<int>, t: int): (r: seq<int>)
    ensures forall x :: x in r <==> x == t || x in times
  {
    if times == [] || t <= times[0] then [t] + times
    else
      assert times == [times[0]] + times[1..];
      [times[0]] + InsertTime(times[1..], t)
  }

  /** The far buckets of each pair. */
  ghost predicate Indexes(index: map<Key, seq<int>>, pairs: seq<Pair>) {
    forall key, t :: t in Buckets(pairs, key) <==> key in index && t in index[key]
  }

  lemma IndexOne(index: map<Key, seq<int>>, pairs: seq<Pair>, p: Pair)
    requires Indexes(index, pairs)
    ensures Indexes(index[p.key := InsertTime(if p.key in index then index[p.key] else [], p.bucket)], pairs + [p])
  {
    var next := index[p.key := InsertTime(if p.key in index then index[p.key] else [], p.bucket)];
    forall key, t ensures t in Buckets(pairs + [p], key) <==> key in next && t in next[key] {
      assert t in Buckets(pairs, key) <==> key in index && t in index[key];
      assert t in Buckets(pairs + [p], key) <==> t in Buckets(pairs, key) || (key == p.key && t == p.bucket) by {
        BucketsGrow(pairs, p, key, t);
      }
    }
  }

  lemma BucketsGrow(pairs: seq<Pair>, p: Pair, key: Key, t: int)
    ensures t in Buckets(pairs + [p], key) <==> t in Buckets(pairs, key) || (key == p.key && t == p.bucket)
  {
    assert p in pairs + [p];
    if q :| q in pairs && q.key == key && q.bucket == t {
      assert q in pairs + [p];
    }
  }

  /** _separated_index: the far buckets of each pair, sorted. */
  method SeparatedIndex(separated: Option<seq<Pair>>) returns (index: map<Key, seq<int>>)
    ensures Indexes(index, if separated.Some? then separated.value else [])
  {
    index := map[];
    if separated.None? {
      return;
    }
    var pairs := separated.value;
    var i := 0;
    while i < |pairs|
      invariant 0 <= i <= |pairs| && Indexes(index, pairs[..i])
    {
      var p := pairs[i];
      IndexOne(index, pairs[..i], p);
      assert pairs[..i + 1] == pairs[..i] + [p];
      index := index[p.key := InsertTime(if p.key in index then index[p.key] else [], p.bucket)];
      i := i + 1;
    }
    assert pairs[..i] == pairs;
  }

  /** any(t < b < u for b in sep_buckets) */
  predicate Broken(sep: seq<int>, t: int, u: int) {
    exists v :: v in sep && t < v < u
  }

  lemma LinkedIff(group: seq<Pair>, s: Option<set<int>>, known: bool, sep: seq<int>, i: nat)
    requires 0 < i < |group| && known == s.Some? && (known ==> forall v :: v in s.value <==> v in sep)
    ensures var gap := group[i].bucket - group[i - 1].bucket;
            Linked(group, s, i) <==>
              gap == POLL || (known && gap <= TOLERANCE * POLL && !Broken(sep, group[i - 1].bucket, group[i].bucket))
  {
  }

  /** Where the loop stands at row i: the rows from runStart on are linked, everything before is collected. */
  ghost predicate AtRow(group: seq<Pair>, s: Option<set<int>>, least: nat, events: seq<Event>, runStart: nat, i: nat) {
    && 0 < i <= |group| && runStart < i
    && (forall k :: runStart < k < i ==> Linked(group, s, k))
    && (0 < runStart ==> !Linked(group, s, runStart))
    && Collected(group, s, least, events, runStart)
  }

  lemma RowLinked(group: seq<Pair>, s: Option<set<int>>, least: nat, events: seq<Event>, runStart: nat, i: nat)
    requires AtRow(group, s, least, events, runStart, i) && i < |group| && Linked(group, s, i)
    ensures AtRow(group, s, least, events, runStart, i + 1)
  {
  }

  lemma RowsAreStretch(group: seq<Pair>, s: Option<set<int>>, least: nat, events: seq<Event>, runStart: nat, i: nat)
    requires AtRow(group, s, least, events, runStart, i) && (i < |group| ==> !Linked(group, s, i))
    ensures Stretch(group, s, runStart, i - 1)
  {
  }

  lemma RunBegins(group: seq<Pair>, s: Option<set<int>>, least: nat, events: seq<Event>, i: nat)
    requires 0 < i < |group| && !Linked(group, s, i) && Collected(group, s, least, events, i)
    ensures AtRow(group, s, least, events, i, i + 1)
  {
  }

  lemma RowBroken(group: seq<Pair>, key: Key, s: Option<set<int>>, least: nat, events: seq<Event>, runStart: nat, i: nat, more: seq<Event>)
    requires IsGroup(group, key) && AtRow(group, s, least, events, runStart, i) && (i < |group| ==> !Linked(group, s, i))
    requires more == events + (if i - runStart >= least then [EventOf(group, runStart, i - 1)] else [])
    ensures Collected(group, s, least, more, i) && (i < |group| ==> AtRow(group, s, least, more, i, i + 1))
  {
    RowsAreStretch(group, s, least, events, runStart, i);
    CollectStretch(group, key, s, least, events, runStart, i - 1, more);
    if i < |group| {
      RunBegins(group, s, least, more, i);
    }
  }

  /** The event of the rows from runStart to before i, if they are enough. */
  function Reported(group: seq<Pair>, least: nat, runStart: nat, i: nat): seq<Event>
    requires runStart < i <= |group|
  {
    if i - runStart >= least then [EventOf(group, runStart, i - 1)] else []
  }

  /** The scan from row i on, with the rows from runStart linked so far. */
  ghost function ScanRuns(group: seq<Pair>, s: Option<set<int>>, least: nat, runStart: nat, i: nat): seq<Event>
    requires runStart < i <= |group|
    decreases |group| - i
  {
    if i == |group| then Reported(group, least, runStart, i)
    else if Linked(group, s, i) then ScanRuns(group, s, least, runStart, i + 1)
    else Reported(group, least, runStart, i) + ScanRuns(group, s, least, i, i + 1)
  }

  lemma ScanLinked(group: seq<Pair>, s: Option<set<int>>, least: nat, runStart: nat, i: nat)
    requires runStart < i < |group| && Linked(group, s, i)
    ensures ScanRuns(group, s, least, runStart, i) == ScanRuns(group, s, least, runStart, i + 1)
  {
  }

  lemma ScanBroken(group: seq<Pair>, s: Option<set<int>>, least: nat, events: seq<Event>, runStart: nat, i: nat)
    requires runStart < i < |group| && !Linked(group, s, i)
    ensures events + ScanRuns(group, s, least, runStart, i)
            == (events + Reported(group, least, runStart, i)) + ScanRuns(group, s, least, i, i + 1)
  {
    assert (events + Reported(group, least, runStart, i)) + ScanRuns(group, s, least, i, i + 1)
        == events + (Reported(group, least, runStart, i) + ScanRuns(group, s, least, i, i + 1));
  }

  lemma ScanEnds(group: seq<Pair>, s: Option<set<int>>, least: nat, runStart: nat)
    requires runStart < |group|
    ensures ScanRuns(group, s, least, runStart, |group|) == Reported(group, least, runStart, |group|)
  {
  }

  lemma {:induction false} ScanCollects(group: seq<Pair>, key: Key, s: Option<set<int>>, least: nat, events: seq<Event>, runStart: nat, i: nat)
    requires IsGroup(group, key) && AtRow(group, s, least, events, runStart, i)
    ensures Collected(group, s, least, events + ScanRuns(group, s, least, runStart, i), |group|)
    decreases |group| - i
  {
    if i == |group| {
      RowBroken(group, key, s, least, events, runStart, i, events + Reported(group, least, runStart, i));
      ScanEnds(group, s, least, runStart);
    } else if Linked(group, s, i) {
      RowLinked(group, s, least, events, runStart, i);
      ScanCollects(group, key, s, least, events, runStart, i + 1);
      ScanLinked(group, s, least, runStart, i);
    } else {
      var more := events + Reported(group, least, runStart, i);
      RowBroken(group, key, s, least, events, runStart, i, more);
      ScanCollects(group, key, s, least, more, i, i + 1);
      ScanBroken(group, s, least, events, runStart, i);
    }
  }

  /** The scan of a pair's rows finds exactly its long stretches. */
  lemma ScanIsCollected(group: seq<Pair>, key: Key, s: Option<set<int>>, least: nat)
    requires group != [] && IsGroup(group, key)
    ensures Collected(group, s, least, ScanRuns(group, s, least, 0, 1), |group|)
  {
    assert [] + ScanRuns(group, s, least, 0, 1) == ScanRuns(group, s, least, 0, 1);
    ScanCollects(group, key, s, least, [], 0, 1);
  }

  lemma ScanIsRight(group: seq<Pair>, key: Key, s: Option<set<int>>, least: nat, events: seq<Event>)
    requires group != [] && events == ScanRuns(group, s, least, 0, 1)
    ensures IsGroup(group, key) ==> Collected(group, s, least, events, |group|)
  {
    if IsGroup(group, key) {
      ScanIsCollected(group, key, s, least);
    }
  }

  ghost predicate ScanGoesOn(group: seq<Pair>, s: Option<set<int>>, least: nat, events: seq<Event>, runStart: nat, i: nat)
    requires 0 < |group| && runStart < i <= |group| + 1
  {
    ScanRuns(group, s, least, 0, 1) == if i == |group| + 1 then events else events + ScanRuns(group, s, least, runStart, i)
  }

  lemma ScanStep(group: seq<Pair>, s: Option<set<int>>, least: nat, events: seq<Event>, runStart: nat, i: nat, linked: bool)
    requires 0 < |group| && runStart < i <= |group| && ScanGoesOn(group, s, least, events, runStart, i)
    requires linked <==> i < |group| && Linked(group, s, i)
    ensures linked ==> ScanGoesOn(group, s, least, events, runStart, i + 1)
    ensures !linked ==> ScanGoesOn(group, s, least, events + Reported(group, least, runStart, i), i, i + 1)
  {
    if linked {
      ScanLinked(group, s, least, runStart, i);
    } else if i < |group| {
      ScanBroken(group, s, least, events, runStart, i);
    } else {
      ScanEnds(group, s, least, runStart);
    }
  }

  /** Whether row i carries on the run of the row before it. */
  method IsConsecutive(group: seq<Pair>, known: bool, sep: seq<int>, ghost s: Option<set<int>>, i: nat) returns (isConsecutive: bool)
    requires 0 < i <= |group| && known == s.Some? && (known ==> forall v :: v in s.value <==> v in sep)
    ensures isConsecutive <==> i < |group| && Linked(group, s, i)
  {
    isConsecutive := false;
    if i < |group| {
      var gap := group[i].bucket - group[i - 1].bucket;
      if gap == POLL {
        isConsecutive := true;
      } else if known {
        isConsecutive := gap <= TOLERANCE * POLL && !Broken(sep, group[i - 1].bucket, group[i].bucket);
      }
      LinkedIff(group, s, known, sep, i);
    }
  }

  lemma ScanBegins(group: seq<Pair>, s: Option<set<int>>, least: nat)
    requires group != []
    ensures ScanGoesOn(group, s, least, [], 0, 1)
  {
  }

  /** A run that is over is reported if it is long enough. */
  method AddIfLong(group: seq<Pair>, least: nat, events: seq<Event>, runStart: nat, i: nat) returns (more: seq<Event>)
    requires runStart < i <= |group|
    ensures more == events + Reported(group, least, runStart, i)
  {
    more := events;
    if i - runStart >= least {
      more := more + [EventOf(group, runStart, i - 1)];
    }
  }

  /** The inner loop: one pair's rows, cut where they are not consecutive. */
  method DetectRuns(group: seq<Pair>, ghost key: Key, least: nat, known: bool, sep: seq<int>, ghost s: Option<set<int>>)
    returns (events: seq<Event>)
    requires group != []
    requires known == s.Some? && (known ==> forall v :: v in s.value <==> v in sep)
    ensures events == ScanRuns(group, s, least, 0, 1)
    ensures IsGroup(group, key) ==> Collected(group, s, least, events, |group|)
  {
    events := [];
    var runStart := 0;
    var i := 1;
    ScanBegins(group, s, least);
    while i <= |group|
      invariant 0 < i <= |group| + 1 && runStart < i
      invariant ScanGoesOn(group, s, least, events, runStart, i)
    {
      var isConsecutive := IsConsecutive(group, known, sep, s, i);
      ScanStep(group, s, least, events, runStart, i, isConsecutive);
      if !isConsecutive {
        events := AddIfLong(group, least, events, runStart, i);
        runStart := i;
      }
      i := i + 1;
    }
    ScanIsRight(group, key, s, least, events);
  }

  /** What one pair's events must be for the whole detection to be right about it. */
  ghost predicate DetectsPair(close: seq<Pair>, separated: Option<seq<Pair>>, least: nat, key: Key, events: seq<Event>) {
    && (forall ev :: ev in events ==> ev.key == key && Describes(close, separated, least, ev))
    && (forall b, e :: IsLasting(close, separated, least, key, b, e) ==> Reports(events, key, b, e))
    && InSequence(events)
  }

  ghost predicate IsGroupOf(group: seq<Pair>, close: seq<Pair>, key: Key) {
    IsGroup(group, key) && forall p :: p in group <==> p in close && p.key == key
  }

  lemma RunHolds(group: seq<Pair>, key: Key, lo: nat, hi: nat, p: Pair)
    requires IsGroup(group, key) && lo <= hi < |group|
    ensures p in group[lo..hi + 1] <==> p in group && group[lo].bucket <= p.bucket <= group[hi].bucket
  {
    var run := group[lo..hi + 1];
    if p in run {
      var m :| 0 <= m < |run| && run[m] == p;
      assert p == group[lo + m];
    }
    if p in group && group[lo].bucket <= p.bucket <= group[hi].bucket {
      var k :| 0 <= k < |group| && group[k] == p;
      assert p == run[k - lo];
    }
  }

  lemma MinDistanceIsClosest(close: seq<Pair>, key: Key, group: seq<Pair>, lo: nat, hi: nat)
    requires IsGroupOf(group, close, key) && lo <= hi < |group|
    ensures IsClosest(close, key, group[lo].bucket, group[hi].bucket, MinDistance(group[lo..hi + 1]))
  {
    var run := group[lo..hi + 1];
    assert run[0] in run;
    var d := MinDistance(run);
    var p :| p in run && p.distance == d;
    RunHolds(group, key, lo, hi, p);
    forall q | q in close && q.key == key && group[lo].bucket <= q.bucket <= group[hi].bucket
      ensures d <= q.distance
    {
      RunHolds(group, key, lo, hi, q);
    }
  }

  lemma EventDescribes(close: seq<Pair>, separated: Option<seq<Pair>>, least: nat, key: Key, group: seq<Pair>, lo: nat, hi: nat)
    requires IsGroupOf(group, close, key) && IsLong(group, Breaks(separated, key), least, lo, hi, |group|)
    ensures EventOf(group, lo, hi).key == key && Describes(close, separated, least, EventOf(group, lo, hi))
  {
    assert Times(group) == Buckets(close, key);
    StretchIsMaximal(group, key, Breaks(separated, key), lo, hi);
    SpanSize(group, key, lo, hi);
    MinDistanceIsClosest(close, key, group, lo, hi);
  }

  lemma GroupDetects(close: seq<Pair>, separated: Option<seq<Pair>>, least: nat, key: Key, group: seq<Pair>, events: seq<Event>)
    requires IsGroupOf(group, close, key) && Collected(group, Breaks(separated, key), least, events, |group|)
    ensures DetectsPair(close, separated, least, key, events)
  {
    var s := Breaks(separated, key);
    forall ev | ev in events ensures ev.key == key && Describes(close, separated, least, ev) {
      var lo: nat, hi: nat :| IsLong(group, s, least, lo, hi, |group|) && ev == EventOf(group, lo, hi);
      EventDescribes(close, separated, least, key, group, lo, hi);
    }
    forall b, e | IsLasting(close, separated, least, key, b, e) ensures Reports(events, key, b, e) {
      assert Times(group) == Buckets(close, key);
      var lo, hi := MaximalIsStretch(group, key, s, b, e);
      SpanSize(group, key, lo, hi);
      assert IsLong(group, s, least, lo, hi, |group|);
      assert EventOf(group, lo, hi) in events;
    }
  }

  ghost predicate Listed(rows: seq<Pair>, key: Key) {
    exists p :: p in rows && p.key == key
  }

  /** Detection is right about every pair listed so far, and silent about the others. */
  ghost predicate DetectsListed(close: seq<Pair>, separated: Option<seq<Pair>>, least: nat, rows: seq<Pair>, events: seq<Event>) {
    && (forall ev :: ev in events ==> Listed(rows, ev.key) && Describes(close, separated, least, ev))
    && (forall key, b, e :: Listed(rows, key) && IsLasting(close, separated, least, key, b, e) ==> Reports(events, key, b, e))
    && InSequence(events)
  }

  lemma DetectsMore(close: seq<Pair>, separated: Option<seq<Pair>>, least: nat, rows: seq<Pair>, events: seq<Event>,
                    key: Key, group: seq<Pair>, more: seq<Event>)
    requires DetectsListed(close, separated, least, rows, events)
    requires group != [] && (forall p :: p in group ==> p.key == key) && !Listed(rows, key)
    requires DetectsPair(close, separated, least, key, more)
    ensures DetectsListed(close, separated, least, rows + group, events + more)
  {
    assert group[0] in rows + group;
    forall k | Listed(rows, k) ensures Listed(rows + group, k) {
      var p :| p in rows && p.key == k;
      assert p in rows + group;
    }
    forall k, b, e | Listed(rows + group, k) && IsLasting(close, separated, least, k, b, e)
      ensures Reports(events + more, k, b, e)
    {
      if k == key {
        assert Reports(more, key, b, e);
      } else {
        var p :| p in rows + group && p.key == k;
        assert Listed(rows, k);
        assert Reports(events, k, b, e);
      }
    }
    forall i, j | 0 <= i < |events| && 0 <= j < |more| ensures events[i].key != more[j].key {
      assert events[i] in events && more[j] in more;
    }
  }

  /** In sorted rows a pair's rows stand together. */
  lemma RowsStandTogether(rows: seq<Pair>, g: nat, h: nat, i: nat)
    requires Sorted(rows) && g < h <= |rows| && rows[h - 1].key == rows[g].key
    requires g > 0 ==> rows[g - 1].key != rows[g].key
    requires h < |rows| ==> rows[h].key != rows[g].key
    requires i < |rows| && rows[i].key == rows[g].key
    ensures g <= i < h
  {
  }

  lemma GroupInTable(rows: seq<Pair>, close: seq<Pair>, g: nat, h: nat)
    requires Sorted(rows) && (forall p :: p in rows <==> p in close)
    requires g < h <= |rows| && forall i :: g <= i < h ==> rows[i].key == rows[g].key
    requires g > 0 ==> rows[g - 1].key != rows[g].key
    requires h < |rows| ==> rows[h].key != rows[g].key
    ensures IsGroupOf(rows[g..h], close, rows[g].key) && !Listed(rows[..g], rows[g].key)
  {
    var group, key := rows[g..h], rows[g].key;
    assert IsGroup(group, key) by {
      SliceIsGroup(rows, g, h);
    }
    forall p | p in close && p.key == key ensures p in group {
      var i :| 0 <= i < |rows| && rows[i] == p;
      RowsStandTogether(rows, g, h, i);
      assert p == group[i - g];
    }
    forall p | p in group ensures p in close && p.key == key {
      var i :| 0 <= i < |group| && group[i] == p;
      assert p == rows[g + i];
    }
    forall i | 0 <= i < g ensures rows[..g][i].key != key {
      if rows[i].key == key {
        RowsStandTogether(rows, g, h, i);
      }
    }
  }

  lemma SliceIsGroup(rows: seq<Pair>, g: nat, h: nat)
    requires Sorted(rows) && g < h <= |rows| && forall i :: g <= i < h ==> rows[i].key == rows[g].key
    ensures IsGroup(rows[g..h], rows[g].key)
  {
    var group := rows[g..h];
    forall i, j | 0 <= i < j < |group| ensures group[i].bucket < group[j].bucket {
      assert Before(rows[g + i], rows[g + j]);
    }
  }

  /** Where the rows of one pair that begin at row g end. */
  ghost function GroupEnd(rows: seq<Pair>, g: nat, h: nat): (end: nat)
    requires g < h <= |rows|
    ensures h <= end <= |rows|
    decreases |rows| - h
  {
    if h < |rows| && rows[h].key == rows[g].key then GroupEnd(rows, g, h + 1) else h
  }

  /** The scan of the sorted table from row g on, group by group. */
  ghost function ScanTable(rows: seq<Pair>, separated: Option<seq<Pair>>, least: nat, g: nat): seq<Event>
    requires g <= |rows|
    decreases |rows| - g
  {
    if g == |rows| then []
    else
      var h := GroupEnd(rows, g, g + 1);
      ScanRuns(rows[g..h], Breaks(separated, rows[g].key), least, 0, 1) + ScanTable(rows, separated, least, h)
  }

  lemma TableScanned(rows: seq<Pair>, separated: Option<seq<Pair>>, least: nat, events: seq<Event>, g: nat, h: nat)
    requires g < |rows| && h == GroupEnd(rows, g, g + 1)
    ensures events + ScanTable(rows, separated, least, g)
            == (events + ScanRuns(rows[g..h], Breaks(separated, rows[g].key), least, 0, 1)) + ScanTable(rows, separated, least, h)
  {
    var more := ScanRuns(rows[g..h], Breaks(separated, rows[g].key), least, 0, 1);
    assert (events + more) + ScanTable(rows, separated, least, h) == events + (more + ScanTable(rows, separated, least, h));
  }

  lemma TableDone(rows: seq<Pair>, separated: Option<seq<Pair>>, least: nat, events: seq<Event>)
    ensures events + ScanTable(rows, separated, least, |rows|) == events
  {
  }

  /** The scan of the table in the order of its rows. */
  ghost predicate Scans(close: seq<Pair>, separated: Option<seq<Pair>>, least: nat, events: seq<Event>) {
    exists rows :: SortedVersion(rows, close) && events == ScanTable(rows, separated, least, 0)
  }

  lemma {:induction false} GroupEnds(rows: seq<Pair>, g: nat, h: nat)
    requires g < h <= |rows| && forall i :: g <= i < h ==> rows[i].key == rows[g].key
    ensures var end := GroupEnd(rows, g, h);
            && (forall i :: g <= i < end ==> rows[i].key == rows[g].key)
            && (end < |rows| ==> rows[end].key != rows[g].key && rows[end - 1].key == rows[g].key)
    decreases |rows| - h
  {
    if h < |rows| && rows[h].key == rows[g].key {
      GroupEnds(rows, g, h + 1);
    }
  }

  /** One group's scan is right about its pair. */
  lemma GroupIsDetected(close: seq<Pair>, separated: Option<seq<Pair>>, least: nat, rows: seq<Pair>, g: nat, h: nat)
    requires Sorted(rows) && (forall p :: p in rows <==> p in close) && g < |rows| && h == GroupEnd(rows, g, g + 1)
    requires g > 0 ==> rows[g - 1].key != rows[g].key
    ensures DetectsPair(close, separated, least, rows[g].key, ScanRuns(rows[g..h], Breaks(separated, rows[g].key), least, 0, 1))
    ensures !Listed(rows[..g], rows[g].key) && forall p :: p in rows[g..h] ==> p.key == rows[g].key
  {
    var group, key := rows[g..h], rows[g].key;
    GroupEnds(rows, g, g + 1);
    GroupInTable(rows, close, g, h);
    ScanIsCollected(group, key, Breaks(separated, key), least);
    GroupDetects(close, separated, least, key, group, ScanRuns(group, Breaks(separated, key), least, 0, 1));
  }

  ghost predicate ScannedTo(close: seq<Pair>, separated: Option<seq<Pair>>, least: nat, rows: seq<Pair>, events: seq<Event>, g: nat)
    requires g <= |rows|
  {
    (0 < g < |rows| ==> rows[g - 1].key != rows[g].key) && DetectsListed(close, separated, least, rows[..g], events)
  }

  /** One group more has been scanned. */
  lemma GroupScanned(close: seq<Pair>, separated: Option<seq<Pair>>, least: nat, rows: seq<Pair>, events: seq<Event>, g: nat, h: nat)
    requires Sorted(rows) && (forall p :: p in rows <==> p in close) && g < |rows| && h == GroupEnd(rows, g, g + 1)
    requires ScannedTo(close, separated, least, rows, events, g)
    ensures ScannedTo(close, separated, least, rows,
                      events + ScanRuns(rows[g..h], Breaks(separated, rows[g].key), least, 0, 1), h)
  {
    GroupIsDetected(close, separated, least, rows, g, h);
    DetectsMore(close, separated, least, rows[..g], events, rows[g].key, rows[g..h],
                ScanRuns(rows[g..h], Breaks(separated, rows[g].key), least, 0, 1));
    assert rows[..h] == rows[..g] + rows[g..h];
    GroupEnds(rows, g, g + 1);
  }

  lemma {:induction false} ScanDetects(close: seq<Pair>, separated: Option<seq<Pair>>, least: nat, rows: seq<Pair>, events: seq<Event>, g: nat)
    requires Sorted(rows) && (forall p :: p in rows <==> p in close) && g <= |rows|
    requires ScannedTo(close, separated, least, rows, events, g)
    ensures ScannedTo(close, separated, least, rows, events + ScanTable(rows, separated, least, g), |rows|)
    decreases |rows| - g
  {
    if g == |rows| {
      TableDone(rows, separated, least, events);
    } else {
      var h := GroupEnd(rows, g, g + 1);
      GroupScanned(close, separated, least, rows, events, g, h);
      ScanDetects(close, separated, least, rows, events + ScanRuns(rows[g..h], Breaks(separated, rows[g].key), least, 0, 1), h);
      TableScanned(rows, separated, least, events, g, h);
    }
  }

  /** If no pair is listed twice in a bucket the scan finds exactly the maximal runs that last. */
  lemma ApartScanDetects(close: seq<Pair>, separated: Option<seq<Pair>>, least: nat)
    requires Apart(close)
    ensures Detects(close, separated, least, ScanTable(SortPairs(close), separated, least, 0))
  {
    var rows := SortPairs(close);
    SortPairsSorts(close);
    assert rows[..0] == [] && rows[..|rows|] == rows;
    ScanDetects(close, separated, least, rows, [], 0);
    assert [] + ScanTable(rows, separated, least, 0) == ScanTable(rows, separated, least, 0);
    AllListed(close, separated, least, rows, ScanTable(rows, separated, least, 0));
  }

  /**
   detect_bunching_events. On any table it is the scan of the sorted rows, where a pair listed
   twice in a bucket has a row for each; if no pair is, it is exactly the maximal runs of each
   pair that last.
   */
  method DetectBunchingEvents(close: seq<Pair>, least: nat, separated: Option<seq<Pair>>) returns (events: seq<Event>)
    ensures Scans(close, separated, least, events)
    ensures Apart(close) ==> Detects(close, separated, least, events)
  {
    events := [];
    var rows := SortPairs(close);
    SortPairsIsSorted(close);
    if Apart(close) {
      ApartScanDetects(close, separated, least);
    }
    if close == [] {
      assert rows == [];
      assert SortedVersion(rows, close) && events == ScanTable(rows, separated, least, 0);
      return;
    }
    var index := SeparatedIndex(separated);
    var g := 0;
    while g < |rows|
      invariant 0 <= g <= |rows|
      invariant ScanTable(rows, separated, least, 0) == events + ScanTable(rows, separated, least, g)
    {
      var h := g + 1;
      while h < |rows| && rows[h].key == rows[g].key
        invariant g < h <= |rows| && GroupEnd(rows, g, g + 1) == GroupEnd(rows, g, h)
      {
        h := h + 1;
      }
      var group, key := rows[g..h], rows[g].key;
      var sep := if key in index then index[key] else [];
      var more := DetectRuns(group, key, least, separated.Some?, sep, Breaks(separated, key));
      TableScanned(rows, separated, least, events, g, h);
      events := events + more;
      g := h;
    }
    TableDone(rows, separated, least, events);
    assert SortedVersion(rows, close) && events == ScanTable(rows, separated, least, 0);
  }

  lemma AllListed(close: seq<Pair>, separated: Option<seq<Pair>>, least: nat, rows: seq<Pair>, events: seq<Event>)
    requires (forall p :: p in rows <==> p in close) && DetectsListed(close, separated, least, rows, events)
    ensures Detects(close, separated, least, events)
  {
    forall key, b, e | IsLasting(close, separated, least, key, b, e) ensures Reports(events, key, b, e) {
      var p :| p in close && p.key == key && p.bucket == b;
      assert Listed(rows, key);
    }
  }
}

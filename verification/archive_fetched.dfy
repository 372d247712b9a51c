/** Nothing but what was fetched ever reaches the archive: the other half of commit safety. */
module ArchiveFetched {
  import opened ArchiveBytes
  import opened ArchiveModel
  import opened ArchiveInvariant

  /** m is on the topic, not before the group's beginning, and some process has fetched it. */
  ghost predicate WasFetched(b: Broker, reached: Offsets, m: Message) {
    && OnTopic(b, m)
    && m.partition < |b.base| && m.partition < |reached|
    && b.base[m.partition] <= m.offset < reached[m.partition]
  }

  /** Every position a process ever had is at or below the high-water mark. */
  ghost predicate ReachOk(b: Broker, w: Writer, reached: Offsets)
    requires OffsetsOk(b, w)
  {
    && |reached| == |b.log|
    && (forall p :: 0 <= p < |b.log| ==> b.committed[p] <= reached[p] <= |b.log[p]|)
    && (w.Up? ==> forall p :: 0 <= p < |b.log| ==> w.position[p] <= reached[p])
  }

  ghost predicate HoldsFetched(b: Broker, reached: Offsets, ledger: map<nat, Content>) {
    forall hour, f :: hour in ledger && f in ledger[hour] ==> WasFetched(b, reached, f.msg)
  }

  ghost predicate Fetched(s: State)
    requires OffsetsOk(s.broker, s.w)
  {
    ReachOk(s.broker, s.w, s.h.reached) && HoldsFetched(s.broker, s.h.reached, s.h.ledger)
  }

  /** Topics and high-water marks only grow. */
  ghost predicate Grows(b: Broker, reached: Offsets, b': Broker, reached': Offsets) {
    && b'.base == b.base && |b'.log| == |b.log| && |reached'| == |reached|
    && (forall p :: 0 <= p < |reached| ==> reached[p] <= reached'[p])
    && (forall p, o :: 0 <= p < |b.log| && 0 <= o < |b.log[p]| ==>
          o < |b'.log[p]| && b'.log[p][o] == b.log[p][o])
  }

  lemma StillFetched(b: Broker, reached: Offsets, b': Broker, reached': Offsets, ledger: map<nat, Content>)
    requires Grows(b, reached, b', reached') && HoldsFetched(b, reached, ledger)
    ensures HoldsFetched(b', reached', ledger)
  {
    forall hour, f | hour in ledger && f in ledger[hour] ensures WasFetched(b', reached', f.msg) {
      assert WasFetched(b, reached, f.msg);
    }
  }

  lemma OutsideGrows(s: State, step: OutsideStep)
    requires OutsideEnabled(s, step)
    ensures Grows(s.broker, s.h.reached, OutsideApply(s, step).broker, OutsideApply(s, step).h.reached)
  {
  }

  lemma FetchedByOthers(s: State, step: Step)
    requires Inv(s) && Fetched(s) && Enabled(s, step) && !step.ByConsumer?
    ensures OffsetsOk(Apply(s, step).broker, Apply(s, step).w) && Fetched(Apply(s, step))
  {
    if step.Outside? {
      OutsideGrows(s, step.o);
      StillFetched(s.broker, s.h.reached, Apply(s, step).broker, Apply(s, step).h.reached, s.h.ledger);
    }
  }

  lemma FetchedByCommit(s: State, step: ConsumerStep)
    requires Inv(s) && Fetched(s) && ConsumerEnabled(s, step) && step.Commit?
    ensures OffsetsOk(ConsumerApply(s, step).broker, ConsumerApply(s, step).w) && Fetched(ConsumerApply(s, step))
  {
    var t := ConsumerApply(s, step);
    BatchEndBounds(s.w.batch, step.partition, s.broker.committed[step.partition], s.w.position[step.partition]);
    StillFetched(s.broker, s.h.reached, t.broker, t.h.reached, s.h.ledger);
  }

  lemma FetchedByFetch(s: State, step: ConsumerStep)
    requires Inv(s) && Fetched(s) && ConsumerEnabled(s, step) && step.Fetch?
    ensures OffsetsOk(ConsumerApply(s, step).broker, ConsumerApply(s, step).w) && Fetched(ConsumerApply(s, step))
  {
    var t := ConsumerApply(s, step);
    StillFetched(s.broker, s.h.reached, t.broker, t.h.reached, s.h.ledger);
  }

  lemma GrowHolds(b: Broker, reached: Offsets, c: Content, m: Message, k: nat)
    requires k > 0 ==> LastIs(c, Frag(m, k))
    requires WasFetched(b, reached, m) && forall f :: f in c ==> WasFetched(b, reached, f.msg)
    ensures forall f :: f in Grow(c, m, k) ==> WasFetched(b, reached, f.msg)
  {
  }

  /** The line that grows in the file is one the reader has handed over. */
  lemma FetchedBySpill(s: State)
    requires Inv(s) && Fetched(s) && ConsumerEnabled(s, Spill)
    ensures OffsetsOk(ConsumerApply(s, Spill).broker, ConsumerApply(s, Spill).w) && Fetched(ConsumerApply(s, Spill))
  {
    var t := ConsumerApply(s, Spill);
    var m := s.w.buf[0];
    assert m in InFlight(s.w);
    assert WasFetched(s.broker, s.h.reached, m);
    GrowHolds(s.broker, s.h.reached, s.disk.plain[s.w.curKey], m, s.w.spilled);
    forall hour, f | hour in t.h.ledger && f in t.h.ledger[hour] ensures WasFetched(t.broker, t.h.reached, f.msg) {
      if hour == s.w.curKey {
        assert f in Grow(s.disk.plain[s.w.curKey], m, s.w.spilled);
      }
    }
  }

  lemma FetchedByRest(s: State, step: ConsumerStep)
    requires Inv(s) && Fetched(s) && ConsumerEnabled(s, step) && !step.Commit? && !step.Fetch? && !step.Spill?
    ensures OffsetsOk(ConsumerApply(s, step).broker, ConsumerApply(s, step).w) && Fetched(ConsumerApply(s, step))
  {
    var t := ConsumerApply(s, step);
    SameReach(s, step);
    SameLines(s, step);
    forall hour, f | hour in t.h.ledger && f in t.h.ledger[hour] ensures WasFetched(t.broker, t.h.reached, f.msg) {
      assert hour in s.h.ledger && t.h.ledger[hour] == s.h.ledger[hour];
    }
  }

  lemma SameReach(s: State, step: ConsumerStep)
    requires OffsetsOk(s.broker, s.w) && ReachOk(s.broker, s.w, s.h.reached)
    requires ConsumerEnabled(s, step) && !step.Commit? && !step.Fetch? && !step.Spill?
    ensures var t := ConsumerApply(s, step);
            t.broker == s.broker && t.h.reached == s.h.reached
            && OffsetsOk(t.broker, t.w) && ReachOk(t.broker, t.w, t.h.reached)
  {
  }

  /** Nothing is written, but an hour may be opened. */
  lemma SameLines(s: State, step: ConsumerStep)
    requires ConsumerEnabled(s, step) && !step.Commit? && !step.Fetch? && !step.Spill?
    ensures var t := ConsumerApply(s, step);
            forall hour :: hour in t.h.ledger && t.h.ledger[hour] != [] ==>
              hour in s.h.ledger && t.h.ledger[hour] == s.h.ledger[hour]
  {
  }

  lemma FetchedStep(s: State, step: Step)
    requires Inv(s) && Fetched(s) && Enabled(s, step)
    ensures OffsetsOk(Apply(s, step).broker, Apply(s, step).w) && Fetched(Apply(s, step))
  {
    if !step.ByConsumer? {
      FetchedByOthers(s, step);
    } else if step.w.Commit? {
      FetchedByCommit(s, step.w);
    } else if step.w.Fetch? {
      FetchedByFetch(s, step.w);
    } else if step.w.Spill? {
      FetchedBySpill(s);
    } else {
      FetchedByRest(s, step.w);
    }
  }

  /** In every reachable state the archive holds only messages of the topic that some process has fetched. */
  lemma {:induction false} FetchedAlways(s: State, schedule: seq<Step>)
    requires Initial(s) && Legal(s, schedule)
    ensures Inv(After(s, schedule)) && Fetched(After(s, schedule))
  {
    InvInitially(s);
    InvAlways(s, schedule);
    if schedule != [] {
      var before := schedule[..|schedule|-1];
      FetchedAlways(s, before);
      FetchedStep(After(s, before), schedule[|schedule|-1]);
    }
  }
}

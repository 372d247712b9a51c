/**
 The world one program of the archive runs in: the file tree, the broker, the
 clock and the other program. Each operation is one step of the model; before
 it, the scheduler lets the others take any steps they can. The schedule so far
 is recorded, so what holds of every legal schedule holds of every point inside
 a program's methods, and of a crash there.
 */
module ArchiveWorld {
  import opened ArchiveBytes
  import opened ArchiveModel
  import opened ArchiveInvariant
  import opened ArchiveTheorems

  /** What happens around one operation: others' steps before it, whether it works, bytes bufio spills by itself. */
  datatype Turn = Turn(others: seq<Step>, ok: bool, spill: nat)

  /** How many of the operations to come are going to fail. */
  function Faults(turns: seq<Turn>): nat {
    if turns == [] then 0 else (if turns[0].ok then 0 else 1) + Faults(turns[1..])
  }

  /** Between two moments one operation has failed, or none if ok: nothing fails by itself. */
  ghost predicate FailsByFault(before: seq<Turn>, after: seq<Turn>, ok: bool) {
    Faults(after) + (if ok then 0 else 1) == Faults(before)
  }

  datatype Actor = Consumer | CompactorPass

  predicate StepOf(actor: Actor, step: Step) {
    if actor.Consumer? then step.ByConsumer? else step.ByCompactor?
  }

  /** What the consumer may rely on while the others run. */
  ghost predicate ConsumerRely(a: State, b: State) {
    && b.w == a.w && b.h == a.h
    && b.disk.plain == a.disk.plain && b.disk.tmp == a.disk.tmp
    && a.clock <= b.clock
    && b.broker.base == a.broker.base && b.broker.committed == a.broker.committed
    && |b.broker.log| == |a.broker.log|
    && (forall hour <- b.disk.gz :: hour in a.disk.gz && b.disk.gz[hour] == a.disk.gz[hour])
    && (forall hour <- a.disk.gz :: hour in b.disk.gz || hour !in a.disk.plain)
  }

  /** What the compactor may rely on while the others run. */
  ghost predicate CompactorRely(a: State, b: State) {
    && b.c == a.c && b.disk.parquet == a.disk.parquet
    && a.clock <= b.clock
    && (forall hour <- a.disk.gz :: hour in b.disk.gz && b.disk.gz[hour] == a.disk.gz[hour])
    && (forall day: nat :: Settled(a.clock, a.disk, day) ==>
          && Settled(b.clock, b.disk, day)
          && HoursOfDay(b.disk.gz.Keys, day) == HoursOfDay(a.disk.gz.Keys, day))
  }

  ghost predicate Rely(actor: Actor, a: State, b: State) {
    if actor.Consumer? then ConsumerRely(a, b) else CompactorRely(a, b)
  }

  lemma ConsumerRelyStep(s: State, step: Step)
    requires Inv(s) && Enabled(s, step) && !step.ByConsumer?
    ensures ConsumerRely(s, Apply(s, step))
  {
    OthersFrame(s, step);
    BrokerStep(s, step);
    if step.ByCompactor? && step.c.Unlink? {
      assert Published(s.clock, s.disk, s.h.ledger, s.c.day);
    }
  }

  lemma CompactorRelyStep(s: State, step: Step)
    requires Inv(s) && Enabled(s, step) && !step.ByCompactor?
    ensures CompactorRely(s, Apply(s, step))
  {
    var t := Apply(s, step);
    if step.ByConsumer? {
      forall day: nat | Settled(s.clock, s.disk, day)
        ensures Settled(t.clock, t.disk, day)
        ensures HoursOfDay(t.disk.gz.Keys, day) == HoursOfDay(s.disk.gz.Keys, day)
      {
        SettledByConsumer(s, step.w, day);
      }
      CompactorSideFrame(s, step.w);
    }
  }

  lemma CompactorSideFrame(s: State, step: ConsumerStep)
    requires Inv(s) && ConsumerEnabled(s, step)
    ensures
      var t := ConsumerApply(s, step);
      && t.c == s.c && t.clock == s.clock && t.disk.parquet == s.disk.parquet
      && forall hour <- s.disk.gz :: hour in t.disk.gz && t.disk.gz[hour] == s.disk.gz[hour]
  {
  }

  class World {
    var s: State
    var turns: seq<Turn>
    ghost const start: State
    ghost var schedule: seq<Step>

    ghost predicate Valid()
      reads this
    {
      Initial(start) && Legal(start, schedule) && After(start, schedule) == s
    }

    constructor (s: State, turns: seq<Turn>)
      requires Initial(s)
      ensures Valid() && this.s == s && this.turns == turns && schedule == [] && start == s
    {
      this.s, this.turns := s, turns;
      start, schedule := s, [];
    }

    lemma Known()
      requires Valid()
      ensures Inv(s)
    {
      InvInitially(start);
      InvAlways(start, schedule);
    }

    method Do(step: Step)
      requires Valid() && Enabled(s, step)
      modifies this`s, this`schedule
      ensures Valid() && s == Apply(old(s), step) && schedule == old(schedule) + [step]
    {
      LegalExtend(start, schedule, step);
      s := Apply(s, step);
      schedule := schedule + [step];
    }

    /** The others run; then the next operation is told whether it will work. */
    method Yield(actor: Actor) returns (ok: bool, spill: nat)
      requires Valid()
      modifies this
      ensures Valid() && old(schedule) <= schedule
      ensures Rely(actor, old(s), s)
      ensures |turns| <= old(|turns|) && FailsByFault(old(turns), turns, ok)
    {
      ok, spill := true, 0;
      if turns != [] {
        var turn := turns[0];
        turns := turns[1..];
        ok, spill := turn.ok, turn.spill;
        var i := 0;
        while i < |turn.others|
          invariant Valid() && old(schedule) <= schedule
          invariant Rely(actor, old(s), s)
          invariant old(turns) != [] && turns == old(turns)[1..] && ok == old(turns)[0].ok
        {
          var step := turn.others[i];
          if !StepOf(actor, step) && Enabled(s, step) {
            Known();
            if actor.Consumer? {
              ConsumerRelyStep(s, step);
            } else {
              CompactorRelyStep(s, step);
            }
            Do(step);
          }
          i := i + 1;
        }
      }
    }
  }
}

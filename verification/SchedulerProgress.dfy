/** Left alone, the scheduler always comes to rest with the latest state on disk: some internal
    step is possible until it rests, and every internal step lowers a measure. */
module SchedulerProgress {
  import opened Common
  import opened StatePersistence
  import opened SchedulerRuns

  /** Steps the scheduler and the disk take without a new call from outside. */
  predicate Internal(e: Event) {
    e.TimerFires? || e.Resume? || e.WriteLands? || e.SaveSucceeds? || e.FollowUp?
  }

  /** A save whose success leaves the tracker dirty: it is stale, or newer state was scheduled. */
  predicate Weak(f: Flush, t: Tracker) {
    f.Saving? && !(f.save.epoch == t.hydrationEpoch && f.save.gen == t.currentGen)
  }

  function WeakCount(fs: seq<Flush>, t: Tracker): nat {
    if fs == [] then 0 else (if Weak(fs[0], t) then 1 else 0) + WeakCount(fs[1..], t)
  }

  /** How many more segments a flush can run, at most, while no weak save settles. */
  function Cost(f: Flush, dirty: bool): nat {
    match f
    case Awaiting(_, _) => if dirty then 5 else 1
    case Saving(_) => if dirty then 4 else 3
    case Settled(_, _) => if dirty then 6 else 2
    case Finished => 0
  }

  function TotalCost(fs: seq<Flush>, dirty: bool): nat {
    if fs == [] then 0 else Cost(fs[0], dirty) + TotalCost(fs[1..], dirty)
  }

  function Work(s: System): nat {
    TimerCost(s.tracker) + TotalCost(s.flushes, Dirty(s.tracker))
  }

  ghost function Afloat(s: System): set<nat> { set i: nat | i < |s.flushes| && Unlanded(s, i) }

  ghost predicate Descends(s: System, s': System) {
    var w, w' := WeakCount(s.flushes, s.tracker), WeakCount(s'.flushes, s'.tracker);
    || w' < w
    || (w' == w && Work(s') < Work(s))
    || (w' == w && Work(s') == Work(s) && |Afloat(s')| < |Afloat(s)|)
  }

  lemma {:induction false} CountsAfterUpdate(fs: seq<Flush>, i: nat, f: Flush, t: Tracker, dirty: bool)
    requires i < |fs|
    ensures TotalCost(fs[i := f], dirty) == TotalCost(fs, dirty) - Cost(fs[i], dirty) + Cost(f, dirty)
    ensures WeakCount(fs[i := f], t) == WeakCount(fs, t) - (if Weak(fs[i], t) then 1 else 0) + (if Weak(f, t) then 1 else 0)
    decreases |fs|
  {
    if i == 0 {
      assert fs[0 := f][1..] == fs[1..];
    } else {
      assert fs[i := f][1..] == fs[1..][i - 1 := f];
      CountsAfterUpdate(fs[1..], i - 1, f, t, dirty);
    }
  }

  lemma {:induction false} CountsAfterOpening(fs: seq<Flush>, t: Tracker, dirty: bool)
    ensures TotalCost(fs + [Finished], dirty) == TotalCost(fs, dirty)
    ensures WeakCount(fs + [Finished], t) == WeakCount(fs, t)
    decreases |fs|
  {
    if fs == [] {
      assert fs + [Finished] == [Finished];
    } else {
      assert (fs + [Finished])[1..] == fs[1..] + [Finished];
      CountsAfterOpening(fs[1..], t, dirty);
    }
  }

  lemma {:induction false} CleanCostsLess(fs: seq<Flush>)
    ensures TotalCost(fs, false) <= TotalCost(fs, true)
    decreases |fs|
  {
    if fs != [] { CleanCostsLess(fs[1..]); }
  }

  /** Marking for reconciliation never turns a strong save weak. */
  lemma {:induction false} WeakCountNotRaised(fs: seq<Flush>, t: Tracker, t': Tracker)
    requires t'.hydrationEpoch == t.hydrationEpoch && t'.currentGen == Max(t.currentGen, 1)
    requires forall f :: f in fs && f.Saving? && f.save.epoch == t.hydrationEpoch ==> 1 <= f.save.gen <= t.currentGen
    ensures WeakCount(fs, t') <= WeakCount(fs, t)
    decreases |fs|
  {
    if fs != [] {
      assert fs[0] in fs;
      WeakCountNotRaised(fs[1..], t, t');
    }
  }

  lemma {:induction false} WeakCountSame(fs: seq<Flush>, t: Tracker, t': Tracker)
    requires t'.hydrationEpoch == t.hydrationEpoch && t'.currentGen == t.currentGen
    ensures WeakCount(fs, t') == WeakCount(fs, t)
    decreases |fs|
  {
    if fs != [] { WeakCountSame(fs[1..], t, t'); }
  }

  function TimerCost(t: Tracker): nat { if !t.timer then 0 else if Dirty(t) then 6 else 2 }

  /** A segment trades the cost of what it consumes for the cost of what it leaves behind. */
  lemma SegmentWork(s: System, i: nat, r: (Tracker, Flush))
    requires i < |s.flushes| && !s.flushes[i].Saving? && Segment(s.tracker, r)
    ensures var d, s' := Dirty(s.tracker), Continued(s, i, r);
            && WeakCount(s'.flushes, s'.tracker) == WeakCount(s.flushes, s.tracker)
            && Work(s') == Work(s) - TimerCost(s.tracker) - Cost(s.flushes[i], d) + TimerCost(r.0) + Cost(r.1, d)
  {
    CountsAfterUpdate(s.flushes, i, r.1, s.tracker, Dirty(s.tracker));
    WeakCountSame(s.flushes[i := r.1], s.tracker, r.0);
  }

  lemma OpeningIsFree(s: System)
    ensures WeakCount(Opened(s).flushes, s.tracker) == WeakCount(s.flushes, s.tracker) && Work(Opened(s)) == Work(s)
  {
    CountsAfterOpening(s.flushes, s.tracker, Dirty(s.tracker));
  }

  lemma TimerDescends(s: System)
    requires s.tracker.timer
    ensures Descends(s, Step(s, TimerFires))
  {
    OpeningIsFree(s);
    SegmentWork(Opened(s), |s.flushes|, FlushStart(s.tracker, |s.flushes|, true));
  }

  lemma ResumeDescends(s: System, i: nat)
    requires Enabled(s, Resume(i))
    ensures Descends(s, Step(s, Resume(i)))
  {
    SegmentWork(s, i, FlushBody(s.tracker, i, s.flushes[i].hasSaveFn));
  }

  lemma FollowUpDescends(s: System, i: nat)
    requires Enabled(s, FollowUp(i))
    ensures Descends(s, Step(s, FollowUp(i)))
  {
    var f := s.flushes[i];
    var c := Continued(s, i, (s.tracker, Finished));
    assert c == s.(flushes := s.flushes[i := Finished]);
    SegmentWork(s, i, (s.tracker, Finished));
    OpeningIsFree(c);
    SegmentWork(Opened(c), |s.flushes|, AfterSave(s.tracker, f.reconcile, f.failed, |s.flushes|));
  }

  lemma LandingDescends(s: System, i: nat)
    requires Unlanded(s, i)
    ensures Descends(s, Step(s, WriteLands(i)))
  {
    var s' := Step(s, WriteLands(i));
    assert Afloat(s') == Afloat(s) - {i};
    assert i in Afloat(s);
  }

  lemma SuccessDescends(s: System, i: nat)
    requires Consistent(s) && Enabled(s, SaveSucceeds(i))
    ensures Descends(s, Step(s, SaveSucceeds(i)))
  {
    var save := s.flushes[i].save;
    var r := SaveSucceeded(s.tracker, save);
    assert FlushOk(s, i);
    forall f | f in s.flushes && f.Saving? && f.save.epoch == s.tracker.hydrationEpoch
      ensures 1 <= f.save.gen <= s.tracker.currentGen
    {
      var j :| 0 <= j < |s.flushes| && s.flushes[j] == f;
      assert FlushOk(s, j);
    }
    var fs' := s.flushes[i := r.1];
    CountsAfterUpdate(s.flushes, i, r.1, s.tracker, false);
    CountsAfterUpdate(s.flushes, i, r.1, s.tracker, true);
    if save.epoch != s.tracker.hydrationEpoch {
      WeakCountNotRaised(fs', s.tracker, r.0);
    } else {
      WeakCountSame(fs', s.tracker, r.0);
      CleanCostsLess(s.flushes);
    }
  }

  /** Internal steps cannot go on for ever: each lowers (weak saves, work, writes afloat). */
  lemma InternalStepDescends(s: System, e: Event)
    requires Consistent(s) && Enabled(s, e) && Internal(e)
    ensures Descends(s, Step(s, e))
  {
    match e
    case TimerFires => TimerDescends(s);
    case Resume(i) => ResumeDescends(s, i);
    case WriteLands(i) => LandingDescends(s, i);
    case SaveSucceeds(i) => SuccessDescends(s, i);
    case FollowUp(i) => FollowUpDescends(s, i);
  }

  /** The write that was issued first among those afloat. */
  lemma {:induction false} FirstAfloat(s: System, among: set<nat>) returns (i: nat)
    requires Consistent(s) && among != {} && among <= Afloat(s)
    ensures i in among && i in s.issues
    ensures forall j :: j in among ==> j in s.issues && s.issues[i].order <= s.issues[j].order
    decreases |among|
  {
    var k :| k in among;
    assert FlushOk(s, k);
    if among == {k} {
      i := k;
    } else {
      var rest := among - {k};
      assert rest != {};
      i := FirstAfloat(s, rest);
      if s.issues[k].order < s.issues[i].order { i := k; }
      assert forall j :: j in among ==> j == k || j in rest;
    }
  }

  /** No deadlock: unless it rests, the scheduler can take an orderly internal step. */
  lemma NeverStuck(s: System) returns (e: Event)
    requires Consistent(s) && !Idle(s)
    ensures Internal(e) && Enabled(s, e) && Orderly(s, e)
  {
    if s.tracker.timer {
      e := TimerFires;
    } else if k: nat :| k < |s.flushes| && Unlanded(s, k) {
      assert k in Afloat(s);
      var i := FirstAfloat(s, Afloat(s));
      e := WriteLands(i);
    } else if k: nat :| k < |s.flushes| && InFlight(s, k) {
      assert !Unlanded(s, k);
      e := SaveSucceeds(k);
    } else {
      var k :| 0 <= k < |s.flushes| && s.flushes[k] != Finished;
      assert !InFlight(s, k);
      if s.flushes[k].Awaiting? {
        e := Resume(k);
        assert !InFlight(s, s.flushes[k].promise);
      } else {
        e := FollowUp(k);
      }
    }
  }

  ghost predicate InternalOnly(events: seq<Event>) { forall e :: e in events ==> Internal(e) }

  /** From any consistent state, internal steps alone lead to rest and keep what is on screen. */
  lemma {:induction false} Drain(s: System) returns (events: seq<Event>, s': System)
    requires Consistent(s)
    ensures OrderlyRun(s, events, s') && InternalOnly(events) && Idle(s')
    ensures s'.tracker.currentState == s.tracker.currentState
    decreases WeakCount(s.flushes, s.tracker), Work(s), |Afloat(s)|
  {
    if Idle(s) {
      events, s' := [], s;
    } else {
      var e := NeverStuck(s);
      InternalStepDescends(s, e);
      ConsistentStep(s, e);
      InternalKeepsScreen(s, e);
      var rest;
      rest, s' := Drain(Step(s, e));
      events := [e] + rest;
      assert events[1..] == rest;
    }
  }

  lemma InternalKeepsScreen(s: System, e: Event)
    requires Enabled(s, e) && Internal(e)
    ensures Step(s, e).tracker.currentState == s.tracker.currentState
  {
    if e.SaveSucceeds? {
      var save := s.flushes[e.i].save;
      assert Settling(s.tracker, save, SaveSucceeded(s.tracker, save));
    } else {
      CallObeysRollbackLaw(s, e);
    }
  }

  /** From any consistent state in which every edit has somebody to save it. */
  lemma DrainSaves(s: System) returns (events: seq<Event>, s': System)
    requires Consistent(s) && Attended(s)
    ensures OrderlyRun(s, events, s') && InternalOnly(events) && Idle(s')
    ensures s'.disk == s'.tracker.currentState == s.tracker.currentState && !Dirty(s'.tracker)
  {
    events, s' := Drain(s);
    ConsistentRun(s, events, s');
    AttendedRun(s, events, s');
    ConsistentAtRest(s');
  }

  /** The scheduler's promise: after any failure-free run that strands nothing, the scheduler, left
      alone, comes to rest with the state now on screen on disk and nothing pending. */
  lemma EventuallySaved(start: System, events: seq<Event>, s: System) returns (more: seq<Event>, s': System)
    requires Start(start) && OrderlyRun(start, events, s) && StrandsNothing(events)
    ensures OrderlyRun(s, more, s') && InternalOnly(more) && Idle(s')
    ensures s'.disk == s'.tracker.currentState == s.tracker.currentState && !Dirty(s'.tracker)
  {
    StartIsConsistent(start);
    StartIsAttended(start);
    ConsistentRun(start, events, s);
    AttendedRun(start, events, s);
    more, s' := DrainSaves(s);
  }
}

/** Every interleaving of one tool's tracker: calls from outside, timers, suspended flushes and
    saves that reach the disk, succeed or fail at any later moment.

    A flush is known by its index in `flushes`; the promise of a save is the index of the flush
    that began it. The last five fields of `System` record history for the theorems and are never
    consulted by a step. */
module SchedulerRuns {
  import opened Common
  import opened StatePersistence

  datatype Issue = Issue(order: nat, changesAtStart: nat, save: Save)

  datatype System = System(
    tracker: Tracker,
    flushes: seq<Flush>,
    landed: set<nat>,
    disk: State,
    changes: nat,               // schedules and inits so far
    issues: map<nat, Issue>,    // when each save began
    top: Option<nat>,           // the save whose write landed last
    hydrated: State,            // what the last init was given
    succeeded: set<State>)      // states saved successfully since then

  datatype Event =
    | Init(state: State)
    | Schedule(state: State, immediate: bool)
    | FlushCalled(hasSaveFn: bool)
    | Cancel
    | TimerFires
    | Resume(i: nat)
    | WriteLands(i: nat)
    | SaveSucceeds(i: nat)
    | SaveFails(i: nat)
    | FollowUp(i: nat)

  predicate InFlight(s: System, i: nat) { i < |s.flushes| && s.flushes[i].Saving? }

  predicate Unlanded(s: System, i: nat) { InFlight(s, i) && i !in s.landed }

  predicate Enabled(s: System, e: Event) {
    match e
    case Init(_) => true
    case Schedule(_, _) => true
    case FlushCalled(_) => true
    case Cancel => true
    case TimerFires => s.tracker.timer
    case Resume(i) => i < |s.flushes| && s.flushes[i].Awaiting? && !InFlight(s, s.flushes[i].promise)
    case WriteLands(i) => Unlanded(s, i)
    case SaveSucceeds(i) => InFlight(s, i) && i in s.landed
    case SaveFails(i) => InFlight(s, i)
    case FollowUp(i) => i < |s.flushes| && s.flushes[i].Settled?
  }

  function Recorded(s: System, i: nat, flush: Flush): System {
    if flush.Saving?
    then s.(issues := s.issues[i := Issue(|s.issues|, s.changes, flush.save)])
    else s
  }

  /** Flush `i` ran a segment. */
  function Continued(s: System, i: nat, result: (Tracker, Flush)): System
    requires i < |s.flushes|
  {
    Recorded(s.(tracker := result.0, flushes := s.flushes[i := result.1]), i, result.1)
  }

  /** Makes room for a flush that has not run yet. */
  function Opened(s: System): System { s.(flushes := s.flushes + [Finished]) }

  /** A new flush ran its first segment. */
  function Launched(s: System, result: (Tracker, Flush)): System {
    Continued(Opened(s), |s.flushes|, result)
  }

  function Step(s: System, e: Event): System
    requires Enabled(s, e)
  {
    match e
    case Init(state) =>
      s.(tracker := Hydrated(s.tracker, state), changes := s.changes + 1, hydrated := state, succeeded := {})
    case Schedule(state, immediate) =>
      Launched(s.(changes := s.changes + 1), Scheduled(s.tracker, state, immediate, |s.flushes|))
    case FlushCalled(hasSaveFn) => Launched(s, FlushStart(s.tracker, |s.flushes|, hasSaveFn))
    case Cancel => s.(tracker := s.tracker.(timer := false))
    case TimerFires => Launched(s, FlushStart(s.tracker, |s.flushes|, true))
    case Resume(i) => Continued(s, i, FlushBody(s.tracker, i, s.flushes[i].hasSaveFn))
    case WriteLands(i) => s.(disk := s.flushes[i].save.state, landed := s.landed + {i}, top := Some(i))
    case SaveSucceeds(i) =>
      var save := s.flushes[i].save;
      var s' := Continued(s, i, SaveSucceeded(s.tracker, save));
      if save.epoch == s.tracker.hydrationEpoch then s'.(succeeded := s.succeeded + {save.state}) else s'
    case SaveFails(i) => Continued(s, i, SaveFailed(s.tracker, s.flushes[i].save))
    case FollowUp(i) =>
      var f := s.flushes[i];
      Launched(s.(flushes := s.flushes[i := Finished]),
               AfterSave(s.tracker, f.reconcile, f.failed, |s.flushes|))
  }

  /** The first use of a tool, by `initToolState` or by `schedule`. */
  function Blank(state: State, disk: State): System {
    System(Created(state), [], {}, disk, 0, map[], None, state, {})
  }

  function StartedByInit(state: State, disk: State): System { Step(Blank(state, disk), Init(state)) }

  function StartedBySchedule(state: State, immediate: bool, disk: State): System {
    Step(Blank(state, disk), Schedule(state, immediate))
  }

  ghost predicate Leads(s: System, events: seq<Event>, s': System)
    decreases |events|
  {
    if events == [] then s' == s
    else Enabled(s, events[0]) && Leads(Step(s, events[0]), events[1..], s')
  }

  // ------------------------------------------------------------ rollback safety, for every run

  /** Holds in every run that starts with an init, whatever fails and in whatever order writes land. */
  ghost predicate Safe(s: System) {
    var t := s.tracker;
    && t.lastPersistedGen <= t.currentGen && 0 <= t.currentGen && (t.currentGen == 0 ==> t.lastPersistedGen == 0)
    && (t.lastPersistedState == s.hydrated || t.lastPersistedState in s.succeeded)
    && (forall i: nat :: InFlight(s, i) ==>
          && i in s.issues
          && s.issues[i].changesAtStart <= s.changes
          && SaveIsKnown(s, s.flushes[i].save, s.issues[i].changesAtStart))
  }

  /** A save is of the present generation and epoch exactly when nothing was scheduled or
      hydrated since it began. */
  ghost predicate SaveIsKnown(s: System, save: Save, changesAtStart: nat) {
    && save.epoch <= s.tracker.hydrationEpoch
    && (save.epoch == s.tracker.hydrationEpoch ==> 1 <= save.gen <= s.tracker.currentGen)
    && ((save.epoch == s.tracker.hydrationEpoch && save.gen == s.tracker.currentGen) <==> changesAtStart == s.changes)
  }

  /** What a segment of a flush that is not the settling of a save may do. */
  predicate Segment(t: Tracker, r: (Tracker, Flush)) {
    && r.0.currentGen == t.currentGen && r.0.currentState == t.currentState
    && r.0.lastPersistedGen == t.lastPersistedGen && r.0.lastPersistedState == t.lastPersistedState
    && r.0.hydrationEpoch == t.hydrationEpoch
    && !r.1.Settled?
    && (r.1.Saving? ==> Dirty(t) && r.1.save == Save(t.currentGen, t.hydrationEpoch, t.currentState))
  }

  /** What the settling of a save may do to the generations. */
  predicate Settling(t: Tracker, save: Save, r: (Tracker, Flush)) {
    var t' := r.0;
    && t'.hydrationEpoch == t.hydrationEpoch && t'.timer == t.timer && r.1.Settled?
    && if save.epoch != t.hydrationEpoch then
         && t'.currentGen == Max(t.currentGen, 1) && t'.lastPersistedGen == -1
         && t'.currentState == t.currentState && t'.lastPersistedState == t.lastPersistedState
         && r.1.reconcile
       else if r.1.failed then
         && t'.currentGen == t.currentGen && t'.lastPersistedGen == t.lastPersistedGen
         && t'.lastPersistedState == t.lastPersistedState
         && t'.currentState == (if save.gen == t.currentGen then t.lastPersistedState else t.currentState)
       else
         && t'.currentGen == t.currentGen && t'.currentState == t.currentState
         && t'.lastPersistedGen == Max(t.lastPersistedGen, save.gen)
         && t'.lastPersistedState == (if save.gen > t.lastPersistedGen then save.state else t.lastPersistedState)
  }

  lemma SafeContinued(s: System, i: nat, r: (Tracker, Flush))
    requires Safe(s) && i < |s.flushes| && !s.flushes[i].Saving? && Segment(s.tracker, r)
    ensures Safe(Continued(s, i, r))
  {
  }

  lemma SafeOpened(s: System)
    requires Safe(s)
    ensures Safe(Opened(s))
  {
    assert forall j: nat :: InFlight(Opened(s), j) ==> InFlight(s, j);
  }

  lemma SafeLaunched(s: System, r: (Tracker, Flush))
    requires Safe(s) && Segment(s.tracker, r)
    ensures Safe(Launched(s, r))
  {
    SafeOpened(s);
    SafeContinued(Opened(s), |s.flushes|, r);
  }

  lemma SafeSettled(s: System, i: nat, r: (Tracker, Flush))
    requires Safe(s) && InFlight(s, i) && Settling(s.tracker, s.flushes[i].save, r)
    ensures var save, s' := s.flushes[i].save, Continued(s, i, r);
            Safe(if !r.1.failed && save.epoch == s.tracker.hydrationEpoch
                 then s'.(succeeded := s.succeeded + {save.state}) else s')
  {
    var s' := Continued(s, i, r);
    forall j: nat | InFlight(s', j)
      ensures j in s'.issues && SaveIsKnown(s', s'.flushes[j].save, s'.issues[j].changesAtStart)
    {
      assert InFlight(s, j) && s'.flushes[j] == s.flushes[j];
    }
  }

  lemma SafeChanged(s: System, state: State)
    requires Safe(s)
    ensures Safe(s.(changes := s.changes + 1, tracker := Changed(s.tracker, state)))
  {
    var s' := s.(changes := s.changes + 1, tracker := Changed(s.tracker, state));
    assert forall j: nat :: InFlight(s', j) ==> InFlight(s, j);
  }

  lemma SafeHydrated(s: System, state: State)
    requires Safe(s)
    ensures Safe(Step(s, Init(state)))
  {
    assert forall j: nat :: InFlight(Step(s, Init(state)), j) ==> InFlight(s, j);
  }

  lemma SafeScheduled(s: System, e: Event)
    requires Safe(s) && e.Schedule?
    ensures Safe(Step(s, e))
  {
    SafeChanged(s, e.state);
    var c := s.(changes := s.changes + 1, tracker := Changed(s.tracker, e.state));
    var r := Scheduled(s.tracker, e.state, e.immediate, |s.flushes|);
    SafeLaunched(c, r);
    assert Step(s, e) == Launched(c, r);
  }

  lemma SafeFollowUp(s: System, e: Event)
    requires Safe(s) && e.FollowUp? && Enabled(s, e)
    ensures Safe(Step(s, e))
  {
    var c := Continued(s, e.i, (s.tracker, Finished));
    SafeContinued(s, e.i, (s.tracker, Finished));
    SafeLaunched(c, AfterSave(s.tracker, s.flushes[e.i].reconcile, s.flushes[e.i].failed, |s.flushes|));
  }

  lemma SafeStep(s: System, e: Event)
    requires Safe(s) && Enabled(s, e)
    ensures Safe(Step(s, e))
  {
    match e
    case Init(state) => SafeHydrated(s, state);
    case Schedule(state, immediate) => SafeScheduled(s, e);
    case FlushCalled(h) => SafeLaunched(s, FlushStart(s.tracker, |s.flushes|, h));
    case Cancel =>
    case TimerFires => SafeLaunched(s, FlushStart(s.tracker, |s.flushes|, true));
    case Resume(i) => SafeContinued(s, i, FlushBody(s.tracker, i, s.flushes[i].hasSaveFn));
    case WriteLands(i) =>
    case SaveSucceeds(i) => SafeSettled(s, i, SaveSucceeded(s.tracker, s.flushes[i].save));
    case SaveFails(i) => SafeSettled(s, i, SaveFailed(s.tracker, s.flushes[i].save));
    case FollowUp(i) => SafeFollowUp(s, e);
  }

  lemma {:induction false} SafeRun(s: System, events: seq<Event>, s': System)
    requires Safe(s) && Leads(s, events, s')
    ensures Safe(s')
    decreases |events|
  {
    if events != [] {
      SafeStep(s, events[0]);
      SafeRun(Step(s, events[0]), events[1..], s');
    }
  }

  /** What one step does to the state on screen and to the last persisted one. */
  ghost predicate RollbackLaw(s: System, e: Event)
    requires Enabled(s, e)
  {
    var t, t' := s.tracker, Step(s, e).tracker;
    match e
    case Init(state) => t'.currentState == t'.lastPersistedState == state
    case Schedule(state, _) => t'.currentState == state && t'.lastPersistedState == t.lastPersistedState
    case SaveFails(i) =>
      && t'.lastPersistedState == t.lastPersistedState
      && t'.currentState == (if i in s.issues && s.issues[i].changesAtStart == s.changes
                             then t.lastPersistedState else t.currentState)
    case SaveSucceeds(i) =>
      && t'.currentState == t.currentState
      && (s.flushes[i].save.epoch != t.hydrationEpoch ==> t'.lastPersistedState == t.lastPersistedState)
      && (t'.lastPersistedState == t.lastPersistedState || t'.lastPersistedState == s.flushes[i].save.state)
    case _ => t'.currentState == t.currentState && t'.lastPersistedState == t.lastPersistedState
  }

  lemma CallObeysRollbackLaw(s: System, e: Event)
    requires Enabled(s, e) && !e.SaveFails? && !e.SaveSucceeds?
    ensures RollbackLaw(s, e)
  {
    var n := |s.flushes|;
    match e
    case Schedule(state, immediate) =>
      assert Segment(Changed(s.tracker, state), Scheduled(s.tracker, state, immediate, n));
    case FlushCalled(h) => assert Segment(s.tracker, FlushStart(s.tracker, n, h));
    case TimerFires => assert Segment(s.tracker, FlushStart(s.tracker, n, true));
    case FollowUp(i) =>
      assert Segment(s.tracker, AfterSave(s.tracker, s.flushes[i].reconcile, s.flushes[i].failed, n));
    case _ =>
  }

  lemma SettlingObeysRollbackLaw(s: System, e: Event)
    requires Enabled(s, e) && (e.SaveFails? || e.SaveSucceeds?)
    requires e.i in s.issues && SaveIsKnown(s, s.flushes[e.i].save, s.issues[e.i].changesAtStart)
    ensures RollbackLaw(s, e)
  {
    var save := s.flushes[e.i].save;
    if e.SaveFails? {
      assert Settling(s.tracker, save, SaveFailed(s.tracker, save));
    } else {
      assert Settling(s.tracker, save, SaveSucceeded(s.tracker, save));
    }
  }

  /** Guarantees 3 and 4 of the scheduler, after any run and for any next step: the state on screen
      changes only by a schedule, an init, or a failed save since whose start neither happened, and
      then it becomes the last persisted state. */
  lemma RollbackSafety(state: State, disk: State, events: seq<Event>, s: System, e: Event)
    requires Leads(StartedByInit(state, disk), events, s) && Enabled(s, e)
    ensures RollbackLaw(s, e)
    ensures s.tracker.lastPersistedState == s.hydrated || s.tracker.lastPersistedState in s.succeeded
    ensures s.tracker.lastPersistedGen <= s.tracker.currentGen
  {
    SafeRun(StartedByInit(state, disk), events, s);
    if e.SaveFails? || e.SaveSucceeds? {
      SettlingObeysRollbackLaw(s, e);
    } else {
      CallObeysRollbackLaw(s, e);
    }
  }

  // ------------------------------------------------------------ nothing pending means saved

  /** Save `i` is of the present generation and epoch. */
  predicate Present(s: System, i: nat) {
    InFlight(s, i) && s.flushes[i].save.epoch == s.tracker.hydrationEpoch && s.flushes[i].save.gen == s.tracker.currentGen
  }

  /** The save of the present generation that fails has a twin in flight whose state is not the one the
      failure rolls back to. */
  ghost predicate Diverges(s: System, e: Event) {
    && e.SaveFails? && Present(s, e.i)
    && exists j: nat :: j != e.i && Present(s, j) && s.flushes[j].save.state != s.tracker.lastPersistedState
  }

  /** Writes land in the order they were issued, an init outside every save is given what is on disk, and
      no failing save has such a twin. */
  ghost predicate Orderly(s: System, e: Event) {
    match e
    case Init(state) => state == s.disk || exists i: nat :: InFlight(s, i)
    case SaveFails(_) => !Diverges(s, e)
    case WriteLands(i) =>
      forall j | 0 <= j < |s.flushes| && Unlanded(s, j) && j in s.issues && i in s.issues ::
        s.issues[i].order <= s.issues[j].order
    case _ => true
  }

  /** A step that may abandon an edit: a cancelled timer, a flush that cannot save, a failed save. */
  predicate Strands(e: Event) { e.Cancel? || e == FlushCalled(false) || e.SaveFails? }

  ghost predicate OrderlyRun(s: System, events: seq<Event>, s': System)
    decreases |events|
  {
    if events == [] then s' == s
    else Enabled(s, events[0]) && Orderly(s, events[0]) && OrderlyRun(Step(s, events[0]), events[1..], s')
  }

  /** A save in flight is on record and of the past or the present. */
  ghost predicate FlushOk(s: System, i: nat)
    requires i < |s.flushes|
  {
    match s.flushes[i]
    case Saving(save) =>
      && i in s.issues && s.issues[i].save == save && save.epoch <= s.tracker.hydrationEpoch
      && (save.epoch == s.tracker.hydrationEpoch ==> 1 <= save.gen <= s.tracker.currentGen)
    case Awaiting(_, _) => i !in s.issues
    case _ => true
  }

  /** Issue orders are distinct and writes have landed in that order. */
  ghost predicate OrderOk(s: System) {
    && (forall i :: i in s.issues ==> i < |s.flushes| && s.issues[i].order < |s.issues|)
    && (forall i, j :: i in s.issues && j in s.issues && i != j ==> s.issues[i].order != s.issues[j].order)
    && (forall i :: i in s.landed ==> i in s.issues)
    && (forall i, j: nat :: i in s.landed && Unlanded(s, j) ==> j in s.issues && s.issues[i].order < s.issues[j].order)
  }

  /** The disk holds what landed last. */
  ghost predicate TopOk(s: System) {
    && (s.top.Some? ==> s.top.value in s.landed && s.top.value in s.issues && s.disk == s.issues[s.top.value].save.state)
    && (forall i :: i in s.landed && i in s.issues ==>
          s.top.Some? && s.top.value in s.issues && s.issues[i].order <= s.issues[s.top.value].order)
  }

  predicate IsNow(t: Tracker, save: Save) { save == Save(t.currentGen, t.hydrationEpoch, t.currentState) }

  /** Everything issued since save `i` began saves what the tracker now holds. */
  ghost predicate NowSince(s: System, i: nat)
    requires i in s.issues
  {
    forall j :: j in s.issues && s.issues[i].order <= s.issues[j].order ==> IsNow(s.tracker, s.issues[j].save)
  }

  ghost predicate PresentOk(s: System) {
    forall i: nat :: Present(s, i) ==> i in s.issues && NowSince(s, i)
  }

  /** A tracker with nothing pending shows what was last persisted, and so does everything on its way. */
  ghost predicate CleanOk(s: System) {
    var t := s.tracker;
    && -1 <= t.lastPersistedGen <= t.currentGen && 0 <= t.currentGen && (t.currentGen == 0 ==> t.lastPersistedGen == 0)
    && (!Dirty(t) ==> t.currentState == t.lastPersistedState)
    && (!Dirty(t) && 1 <= t.currentGen ==> s.top.Some? && s.top.value in s.issues && NowSince(s, s.top.value))
    && (t.currentGen == 0 ==> s.disk == t.currentState || exists i: nat :: InFlight(s, i))
  }

  ghost predicate Consistent(s: System) {
    && OrderOk(s) && TopOk(s) && PresentOk(s) && CleanOk(s)
    && (forall i :: 0 <= i < |s.flushes| ==> FlushOk(s, i))
  }

  /** The same saves are on record and in flight, and the tracker differs in bookkeeping at most. */
  ghost predicate SameSaves(s: System, s': System) {
    var t, t' := s.tracker, s'.tracker;
    && s'.issues == s.issues
    && t'.currentGen == t.currentGen && t'.currentState == t.currentState && t'.hydrationEpoch == t.hydrationEpoch
    && t'.lastPersistedGen == t.lastPersistedGen && t'.lastPersistedState == t.lastPersistedState
    && |s.flushes| <= |s'.flushes|
    && (forall j: nat :: InFlight(s', j) <==> InFlight(s, j))
    && (forall j: nat :: InFlight(s', j) ==> s'.flushes[j] == s.flushes[j])
    && (forall j: nat :: j < |s'.flushes| && s'.flushes[j].Awaiting? ==> j !in s.issues)
  }

  lemma SamePresent(s: System, s': System)
    requires PresentOk(s) && SameSaves(s, s')
    ensures PresentOk(s')
  {
    forall j: nat | Present(s', j) ensures j in s'.issues && NowSince(s', j) {
      assert Present(s, j);
    }
  }

  lemma SameFlushes(s: System, s': System)
    requires (forall i :: 0 <= i < |s.flushes| ==> FlushOk(s, i)) && SameSaves(s, s')
    ensures forall i :: 0 <= i < |s'.flushes| ==> FlushOk(s', i)
  {
    forall j | 0 <= j < |s'.flushes| ensures FlushOk(s', j) {
      if InFlight(s', j) { assert FlushOk(s, j); }
    }
  }

  lemma SameClean(s: System, s': System)
    requires CleanOk(s) && SameSaves(s, s') && s'.top == s.top && s'.disk == s.disk
    ensures CleanOk(s')
  {
    if s.top.Some? && s.top.value in s.issues && NowSince(s, s.top.value) {
      assert NowSince(s', s.top.value);
    }
    if i: nat :| InFlight(s, i) { assert InFlight(s', i); }
  }

  lemma SameOrder(s: System, s': System)
    requires OrderOk(s) && TopOk(s) && SameSaves(s, s')
    requires s'.landed == s.landed && s'.top == s.top && s'.disk == s.disk
    ensures OrderOk(s') && TopOk(s')
  {
    assert forall j: nat :: Unlanded(s', j) <==> Unlanded(s, j);
  }

  lemma SameSavesConsistent(s: System, s': System)
    requires Consistent(s) && SameSaves(s, s')
    requires s'.landed == s.landed && s'.top == s.top && s'.disk == s.disk
    ensures Consistent(s')
  {
    SameOrder(s, s');
    SamePresent(s, s');
    SameFlushes(s, s');
    SameClean(s, s');
  }

  ghost predicate WaitersOk(s: System) {
    forall j: nat :: j < |s.flushes| && s.flushes[j].Awaiting? ==> j !in s.issues
  }

  lemma ConsistentWaiters(s: System)
    requires Consistent(s)
    ensures WaitersOk(s)
  {
    forall j: nat | j < |s.flushes| && s.flushes[j].Awaiting? ensures j !in s.issues { assert FlushOk(s, j); }
  }

  lemma RestContinued(s: System, i: nat, r: (Tracker, Flush))
    requires Consistent(s) && i < |s.flushes| && !s.flushes[i].Saving? && Segment(s.tracker, r) && !r.1.Saving?
    requires !r.1.Awaiting? || i !in s.issues
    ensures Consistent(Continued(s, i, r))
  {
    ConsistentWaiters(s);
    SameSavesConsistent(s, Continued(s, i, r));
  }

  /** A save begins: it is issued last and saves what the tracker holds. */
  lemma SaveContinued(s: System, i: nat, r: (Tracker, Flush))
    requires Consistent(s) && i < |s.flushes| && !s.flushes[i].Saving? && Segment(s.tracker, r) && r.1.Saving?
    requires i !in s.issues
    ensures Consistent(Continued(s, i, r))
  {
    var s' := Continued(s, i, r);
    SavedInOrder(s, i, r);
    assert InFlight(s', i);
    assert CleanOk(s');
    forall j: nat | Present(s', j) ensures j in s'.issues && NowSince(s', j) {
      assert j == i || Present(s, j);
    }
    SavedFlushesOk(s, i, r);
  }

  lemma SavedInOrder(s: System, i: nat, r: (Tracker, Flush))
    requires OrderOk(s) && TopOk(s) && i < |s.flushes| && r.1.Saving? && i !in s.issues
    ensures OrderOk(Continued(s, i, r)) && TopOk(Continued(s, i, r))
  {
    SavedOrder(s, i, r);
    assert i !in s.landed;
  }

  lemma NextOrderIsNew(issues: map<nat, Issue>, i: nat, issue: Issue)
    requires i !in issues && issue.order == |issues|
    requires forall j :: j in issues ==> issues[j].order < |issues|
    requires forall j, k :: j in issues && k in issues && j != k ==> issues[j].order != issues[k].order
    ensures var next := issues[i := issue];
            && |next| == |issues| + 1 && (forall j :: j in next ==> next[j].order < |next|)
            && (forall j, k :: j in next && k in next && j != k ==> next[j].order != next[k].order)
  {
  }

  lemma SavedOrder(s: System, i: nat, r: (Tracker, Flush))
    requires OrderOk(s) && i < |s.flushes| && r.1.Saving? && i !in s.issues
    ensures OrderOk(Continued(s, i, r))
  {
    var s' := Continued(s, i, r);
    assert s'.issues == s.issues[i := Issue(|s.issues|, s.changes, r.1.save)];
    NextOrderIsNew(s.issues, i, Issue(|s.issues|, s.changes, r.1.save));
    assert i !in s.landed;
    assert forall j: nat :: Unlanded(s', j) ==> Unlanded(s, j) || j == i;
  }

  lemma SavedFlushesOk(s: System, i: nat, r: (Tracker, Flush))
    requires Consistent(s) && i < |s.flushes| && Segment(s.tracker, r) && r.1.Saving? && i !in s.issues
    ensures forall j | 0 <= j < |s.flushes| :: FlushOk(Continued(s, i, r), j)
  {
    forall j | 0 <= j < |s.flushes| ensures FlushOk(Continued(s, i, r), j) {
      assert FlushOk(s, j);
    }
  }

  lemma ConsistentContinued(s: System, i: nat, r: (Tracker, Flush))
    requires Consistent(s) && i < |s.flushes| && !s.flushes[i].Saving? && Segment(s.tracker, r)
    requires r.1.Finished? || i !in s.issues
    ensures Consistent(Continued(s, i, r))
  {
    if r.1.Saving? { SaveContinued(s, i, r); } else { RestContinued(s, i, r); }
  }

  lemma ConsistentOpened(s: System)
    requires Consistent(s)
    ensures Consistent(Opened(s)) && |s.flushes| !in s.issues
  {
    ConsistentWaiters(s);
    SameSavesConsistent(s, Opened(s));
  }

  lemma ConsistentLaunched(s: System, r: (Tracker, Flush))
    requires Consistent(s) && Segment(s.tracker, r)
    ensures Consistent(Launched(s, r))
  {
    ConsistentOpened(s);
    ConsistentContinued(Opened(s), |s.flushes|, r);
  }

  /** The settled save leaves the air; what is left must fit the tracker it leaves behind. */
  lemma FlushesSettled(s: System, i: nat, r: (Tracker, Flush))
    requires Consistent(s) && InFlight(s, i) && r.1.Settled?
    requires r.0.hydrationEpoch == s.tracker.hydrationEpoch && s.tracker.currentGen <= r.0.currentGen
    requires PresentOk(Continued(s, i, r)) && CleanOk(Continued(s, i, r))
    ensures Consistent(Continued(s, i, r))
  {
    var s' := Continued(s, i, r);
    assert forall j: nat :: InFlight(s', j) ==> InFlight(s, j);
    assert forall j: nat :: Unlanded(s', j) ==> Unlanded(s, j);
    forall j | 0 <= j < |s'.flushes| ensures FlushOk(s', j) {
      assert FlushOk(s, j);
    }
  }

  lemma StaleSettled(s: System, i: nat, r: (Tracker, Flush))
    requires Consistent(s) && InFlight(s, i) && Settling(s.tracker, s.flushes[i].save, r)
    requires s.flushes[i].save.epoch != s.tracker.hydrationEpoch
    ensures Consistent(Continued(s, i, r))
  {
    var s' := Continued(s, i, r);
    forall j: nat | Present(s', j) ensures j in s'.issues && NowSince(s', j) {
      assert FlushOk(s, j);
      assert Present(s, j);
    }
    FlushesSettled(s, i, r);
  }

  lemma SuccessSettled(s: System, i: nat, r: (Tracker, Flush))
    requires Consistent(s) && InFlight(s, i) && i in s.landed && Settling(s.tracker, s.flushes[i].save, r)
    requires s.flushes[i].save.epoch == s.tracker.hydrationEpoch && !r.1.failed
    ensures Consistent(Continued(s, i, r))
  {
    var s' := Continued(s, i, r);
    assert FlushOk(s, i);
    forall j: nat | Present(s', j) ensures j in s'.issues && NowSince(s', j) {
      assert Present(s, j);
    }
    if Present(s, i) {
      assert NowSince(s, i) && IsNow(s.tracker, s.issues[i].save);
      assert NowSince(s', s'.top.value);
    }
    FlushesSettled(s, i, r);
  }

  lemma FailureSettled(s: System, i: nat, r: (Tracker, Flush))
    requires Consistent(s) && InFlight(s, i) && Settling(s.tracker, s.flushes[i].save, r)
    requires s.flushes[i].save.epoch == s.tracker.hydrationEpoch && r.1.failed && !Diverges(s, SaveFails(i))
    ensures Consistent(Continued(s, i, r))
  {
    var s' := Continued(s, i, r);
    assert FlushOk(s, i);
    forall j: nat | Present(s', j) ensures j in s'.issues && NowSince(s', j) {
      assert Present(s, j) && j != i && FlushOk(s, j);
      assert IsNow(s.tracker, s.issues[j].save);
      assert r.0.currentState == s.tracker.currentState;
    }
    FlushesSettled(s, i, r);
  }

  lemma ConsistentSettled(s: System, i: nat, r: (Tracker, Flush))
    requires Consistent(s) && InFlight(s, i) && Settling(s.tracker, s.flushes[i].save, r)
    requires if r.1.failed then !Diverges(s, SaveFails(i)) else i in s.landed
    ensures Consistent(Continued(s, i, r))
  {
    if s.flushes[i].save.epoch != s.tracker.hydrationEpoch {
      StaleSettled(s, i, r);
    } else if r.1.failed {
      FailureSettled(s, i, r);
    } else {
      SuccessSettled(s, i, r);
    }
  }

  lemma ConsistentChanged(s: System, state: State)
    requires Consistent(s)
    ensures Consistent(s.(changes := s.changes + 1, tracker := Changed(s.tracker, state)))
  {
    var s' := s.(changes := s.changes + 1, tracker := Changed(s.tracker, state));
    assert forall j: nat :: Unlanded(s', j) <==> Unlanded(s, j);
    forall j | 0 <= j < |s'.flushes| ensures FlushOk(s', j) && !Present(s', j) {
      assert FlushOk(s, j);
    }
  }

  lemma ConsistentHydrated(s: System, state: State)
    requires Consistent(s) && Orderly(s, Init(state))
    ensures Consistent(Step(s, Init(state)))
  {
    var s' := Step(s, Init(state));
    assert forall j: nat :: InFlight(s', j) <==> InFlight(s, j);
    assert forall j: nat :: Unlanded(s', j) <==> Unlanded(s, j);
    forall j | 0 <= j < |s'.flushes| ensures FlushOk(s', j) && !Present(s', j) {
      assert FlushOk(s, j);
    }
  }

  /** The landing save is the first of those on their way. */
  lemma LandsInOrder(s: System, i: nat)
    requires Consistent(s) && Unlanded(s, i) && Orderly(s, WriteLands(i))
    ensures i in s.issues && (s.top.Some? ==> s.issues[s.top.value].order < s.issues[i].order)
    ensures forall j: nat :: Unlanded(s, j) && j != i ==> j in s.issues && s.issues[i].order < s.issues[j].order
  {
    assert FlushOk(s, i);
    forall j: nat | Unlanded(s, j) && j != i ensures j in s.issues && s.issues[i].order < s.issues[j].order {
      assert FlushOk(s, j);
    }
  }

  lemma LandedInOrder(s: System, i: nat)
    requires Consistent(s) && Unlanded(s, i) && Orderly(s, WriteLands(i))
    ensures OrderOk(Step(s, WriteLands(i))) && TopOk(Step(s, WriteLands(i)))
  {
    var s' := Step(s, WriteLands(i));
    assert FlushOk(s, i);
    LandsInOrder(s, i);
    assert forall j: nat :: Unlanded(s', j) <==> Unlanded(s, j) && j != i;
  }

  lemma LandedClean(s: System, i: nat)
    requires Consistent(s) && Unlanded(s, i) && Orderly(s, WriteLands(i))
    ensures CleanOk(Step(s, WriteLands(i)))
  {
    var s' := Step(s, WriteLands(i));
    LandsInOrder(s, i);
    assert InFlight(s', i);
    if s.top.Some? && s.top.value in s.issues && NowSince(s, s.top.value) {
      assert NowSince(s', i);
    }
  }

  lemma ConsistentLanded(s: System, i: nat)
    requires Consistent(s) && Unlanded(s, i) && Orderly(s, WriteLands(i))
    ensures Consistent(Step(s, WriteLands(i)))
  {
    var s' := Step(s, WriteLands(i));
    ConsistentWaiters(s);
    assert SameSaves(s, s');
    LandedInOrder(s, i);
    LandedClean(s, i);
    SamePresent(s, s');
    SameFlushes(s, s');
  }

  /** Scheduling changes the state and then, if it is immediate, launches a flush. */
  lemma ScheduleIsChangeAndLaunch(s: System, state: State, immediate: bool)
    ensures var c := s.(changes := s.changes + 1, tracker := Changed(s.tracker, state));
            var r := Scheduled(s.tracker, state, immediate, |s.flushes|);
            Step(s, Schedule(state, immediate)) == Launched(c, r) && Segment(c.tracker, r)
  {
  }

  lemma ConsistentScheduled(s: System, state: State, immediate: bool)
    requires Consistent(s)
    ensures Consistent(Step(s, Schedule(state, immediate)))
  {
    ConsistentChanged(s, state);
    ScheduleIsChangeAndLaunch(s, state, immediate);
    ConsistentLaunched(s.(changes := s.changes + 1, tracker := Changed(s.tracker, state)),
                       Scheduled(s.tracker, state, immediate, |s.flushes|));
  }

  lemma ConsistentFollowUp(s: System, e: Event)
    requires Consistent(s) && e.FollowUp? && Enabled(s, e)
    ensures Consistent(Step(s, e))
  {
    var c := Continued(s, e.i, (s.tracker, Finished));
    ConsistentContinued(s, e.i, (s.tracker, Finished));
    ConsistentLaunched(c, AfterSave(s.tracker, s.flushes[e.i].reconcile, s.flushes[e.i].failed, |s.flushes|));
  }

  lemma ConsistentCancel(s: System)
    requires Consistent(s)
    ensures Consistent(Step(s, Cancel))
  {
    ConsistentWaiters(s);
    SameSavesConsistent(s, Step(s, Cancel));
  }

  lemma ConsistentFlushed(s: System, hasSaveFn: bool)
    requires Consistent(s)
    ensures Consistent(Launched(s, FlushStart(s.tracker, |s.flushes|, hasSaveFn)))
  {
    ConsistentLaunched(s, FlushStart(s.tracker, |s.flushes|, hasSaveFn));
  }

  lemma ConsistentResumed(s: System, i: nat)
    requires Consistent(s) && Enabled(s, Resume(i))
    ensures Consistent(Step(s, Resume(i)))
  {
    assert FlushOk(s, i);
    ConsistentContinued(s, i, FlushBody(s.tracker, i, s.flushes[i].hasSaveFn));
  }

  lemma ConsistentFails(s: System, i: nat)
    requires Consistent(s) && InFlight(s, i) && !Diverges(s, SaveFails(i))
    ensures Consistent(Step(s, SaveFails(i)))
  {
    ConsistentSettled(s, i, SaveFailed(s.tracker, s.flushes[i].save));
  }

  lemma ConsistentStep(s: System, e: Event)
    requires Consistent(s) && Enabled(s, e) && Orderly(s, e)
    ensures Consistent(Step(s, e))
  {
    match e
    case Init(state) => ConsistentHydrated(s, state);
    case Schedule(state, immediate) => ConsistentScheduled(s, state, immediate);
    case FlushCalled(h) => ConsistentFlushed(s, h);
    case Cancel => ConsistentCancel(s);
    case TimerFires => ConsistentFlushed(s, true);
    case Resume(i) => ConsistentResumed(s, i);
    case WriteLands(i) => ConsistentLanded(s, i);
    case SaveSucceeds(i) => ConsistentSucceeds(s, e);
    case SaveFails(i) => ConsistentFails(s, i);
    case FollowUp(i) => ConsistentFollowUp(s, e);
  }

  lemma ConsistentIgnoresHistory(s: System, succeeded: set<State>)
    requires Consistent(s)
    ensures Consistent(s.(succeeded := succeeded))
  {
    ConsistentWaiters(s);
    SameSavesConsistent(s, s.(succeeded := succeeded));
  }

  lemma ConsistentSucceeds(s: System, e: Event)
    requires Consistent(s) && e.SaveSucceeds? && Enabled(s, e)
    ensures Consistent(Step(s, e))
  {
    var save := s.flushes[e.i].save;
    var r := SaveSucceeded(s.tracker, save);
    ConsistentSettled(s, e.i, r);
    ConsistentIgnoresHistory(Continued(s, e.i, r), s.succeeded + {save.state});
  }

  lemma {:induction false} ConsistentRun(s: System, events: seq<Event>, s': System)
    requires Consistent(s) && OrderlyRun(s, events, s')
    ensures Consistent(s')
    decreases |events|
  {
    if events != [] {
      ConsistentStep(s, events[0]);
      ConsistentRun(Step(s, events[0]), events[1..], s');
    }
  }

  /** The two ways a tool comes into use, the disk holding what init was given. */
  ghost predicate Start(s: System) {
    || (exists state :: s == StartedByInit(state, state))
    || (exists state, immediate, disk :: s == StartedBySchedule(state, immediate, disk))
  }

  lemma FirstChangeIsConsistent(state: State, disk: State)
    ensures var b := Blank(state, disk); Consistent(b.(changes := b.changes + 1, tracker := Changed(b.tracker, state)))
  {
  }

  lemma InitIsConsistent(state: State)
    ensures Consistent(StartedByInit(state, state))
  {
  }

  lemma StartIsConsistent(s: System)
    requires Start(s)
    ensures Consistent(s)
  {
    if state :| s == StartedByInit(state, state) {
      InitIsConsistent(state);
    } else {
      var state, immediate, disk :| s == StartedBySchedule(state, immediate, disk);
      var b := Blank(state, disk);
      FirstChangeIsConsistent(state, disk);
      ScheduleIsChangeAndLaunch(b, state, immediate);
      ConsistentLaunched(b.(changes := b.changes + 1, tracker := Changed(b.tracker, state)),
                         Scheduled(b.tracker, state, immediate, |b.flushes|));
    }
  }

  // Whoever still owes a save when the tracker is dirty

  predicate Idle(s: System) {
    !s.tracker.timer && forall i | 0 <= i < |s.flushes| :: s.flushes[i] == Finished
  }

  ghost predicate AllCanSave(s: System) {
    forall i | 0 <= i < |s.flushes| ::
      && (s.flushes[i].Awaiting? ==> s.flushes[i].hasSaveFn)
      && (s.flushes[i].Settled? ==> !s.flushes[i].failed)
  }

  ghost predicate Attended(s: System) { (Dirty(s.tracker) ==> !Idle(s)) && AllCanSave(s) }

  /** The segment leaves somebody to save a dirty tracker, and a waiter that can. */
  predicate Owes(r: (Tracker, Flush)) {
    && (Dirty(r.0) ==> r.0.timer || r.1 != Finished)
    && (r.1.Awaiting? ==> r.1.hasSaveFn)
    && (r.1.Settled? ==> !r.1.failed)
  }

  lemma AttendedContinued(s: System, i: nat, r: (Tracker, Flush))
    requires AllCanSave(s) && i < |s.flushes| && Owes(r)
    ensures Attended(Continued(s, i, r))
  {
    assert Continued(s, i, r).flushes[i] == r.1;
  }

  lemma AttendedLaunched(s: System, r: (Tracker, Flush))
    requires AllCanSave(s) && Owes(r)
    ensures Attended(Launched(s, r))
  {
    AttendedContinued(Opened(s), |s.flushes|, r);
  }

  lemma AttendedStep(s: System, e: Event)
    requires Attended(s) && Enabled(s, e) && Orderly(s, e) && !Strands(e)
    ensures Attended(Step(s, e))
  {
    var n := |s.flushes|;
    match e
    case Init(_) =>
    case Schedule(state, immediate) =>
      AttendedLaunched(s.(changes := s.changes + 1), Scheduled(s.tracker, state, immediate, n));
    case FlushCalled(h) => AttendedLaunched(s, FlushStart(s.tracker, n, h));
    case TimerFires => AttendedLaunched(s, FlushStart(s.tracker, n, true));
    case Resume(i) => AttendedContinued(s, i, FlushBody(s.tracker, i, true));
    case WriteLands(i) => assert Step(s, e).flushes[i] != Finished;
    case SaveSucceeds(i) =>
      AttendedContinued(s, i, SaveSucceeded(s.tracker, s.flushes[i].save));
      assert Step(s, e).flushes[i] != Finished;
    case FollowUp(i) =>
      var f := s.flushes[i];
      AttendedLaunched(s.(flushes := s.flushes[i := Finished]), AfterSave(s.tracker, f.reconcile, f.failed, n));
    case _ =>
  }

  ghost predicate StrandsNothing(events: seq<Event>) { forall e :: e in events ==> !Strands(e) }

  lemma {:induction false} AttendedRun(s: System, events: seq<Event>, s': System)
    requires Consistent(s) && Attended(s) && OrderlyRun(s, events, s') && StrandsNothing(events)
    ensures Attended(s')
    decreases |events|
  {
    if events != [] {
      ConsistentStep(s, events[0]);
      AttendedStep(s, events[0]);
      AttendedRun(Step(s, events[0]), events[1..], s');
    }
  }

  lemma StartIsAttended(s: System)
    requires Start(s)
    ensures Attended(s)
  {
    if state, immediate, disk :| s == StartedBySchedule(state, immediate, disk) {
      AttendedLaunched(Blank(state, disk).(changes := 1), Scheduled(Created(state), state, immediate, 0));
    }
  }

  lemma ConsistentAtRest(s: System)
    requires Consistent(s) && (forall i: nat :: !InFlight(s, i)) && !Dirty(s.tracker)
    ensures s.disk == s.tracker.currentState == s.tracker.lastPersistedState
    ensures s.tracker.currentGen == s.tracker.lastPersistedGen
  {
    if 1 <= s.tracker.currentGen {
      assert NowSince(s, s.top.value);
    }
  }

  /** Durability, whatever is cancelled and whatever fails, twins of a failing save apart: once no save is
      in flight, a tracker with nothing pending shows exactly what is on disk and was last persisted. */
  lemma NothingPendingMeansSaved(start: System, events: seq<Event>, s: System)
    requires Start(start) && OrderlyRun(start, events, s)
    requires (forall i: nat :: !InFlight(s, i)) && !Dirty(s.tracker)
    ensures s.disk == s.tracker.currentState == s.tracker.lastPersistedState
    ensures s.tracker.currentGen == s.tracker.lastPersistedGen
  {
    StartIsConsistent(start);
    ConsistentRun(start, events, s);
    ConsistentAtRest(s);
  }

  lemma SuccessIsSettling(t: Tracker, save: Save)
    ensures Settling(t, save, SaveSucceeded(t, save))
  {
  }

  /** What a consistent system knows of two saves in flight when one fails and the other then succeeds. */
  lemma TwinInConsistent(t: Tracker, i: Save, j: Save)
    requires t.lastPersistedGen <= t.currentGen && (!Dirty(t) ==> t.currentState == t.lastPersistedState)
    requires i.epoch <= t.hydrationEpoch && (i.epoch == t.hydrationEpoch ==> i.gen <= t.currentGen) && 0 <= t.currentGen
    requires j.epoch <= t.hydrationEpoch && (j.epoch == t.hydrationEpoch ==> j.gen <= t.currentGen)
    requires j.epoch == t.hydrationEpoch && j.gen == t.currentGen ==> j.state == t.currentState
    ensures var t' := SaveSucceeded(SaveFailed(t, i).0, j).0;
            (!Dirty(t') && t'.currentState != t'.lastPersistedState) <==>
            && i.epoch == j.epoch == t.hydrationEpoch && i.gen == j.gen == t.currentGen
            && j.state != t.lastPersistedState
  {
    var f := SaveFailed(t, i).0;
    assert Settling(t, i, SaveFailed(t, i));
    assert f.currentGen == Max(t.currentGen, 1) || f.currentGen == t.currentGen;
    SuccessIsSettling(f, j);
  }

  lemma SavesInConsistent(s: System, i: nat)
    requires Consistent(s) && InFlight(s, i)
    ensures var t, save := s.tracker, s.flushes[i].save;
            && save.epoch <= t.hydrationEpoch && (save.epoch == t.hydrationEpoch ==> save.gen <= t.currentGen)
            && (Present(s, i) ==> save.state == t.currentState)
  {
    assert FlushOk(s, i);
    if Present(s, i) {
      assert NowSince(s, i) && IsNow(s.tracker, s.issues[i].save);
    }
  }

  lemma TwinSteps(s: System, i: nat, j: nat)
    requires Enabled(s, SaveFails(i)) && i != j && Enabled(s, SaveSucceeds(j))
    ensures var failed := Step(s, SaveFails(i));
            && Enabled(failed, SaveSucceeds(j))
            && Step(failed, SaveSucceeds(j)).tracker
               == SaveSucceeded(SaveFailed(s.tracker, s.flushes[i].save).0, s.flushes[j].save).0
  {
  }

  /** The exception is exact. When save `i` fails after any such run and `j` succeeds next, the tracker has
      nothing pending and yet shows something else than it persisted, exactly when both are of the present
      generation and epoch and `j` saves another state than the one the failure rolls back to. */
  lemma TwinDivergesExactly(start: System, events: seq<Event>, s: System, i: nat, j: nat)
    requires Start(start) && OrderlyRun(start, events, s)
    requires Enabled(s, SaveFails(i)) && i != j && Enabled(s, SaveSucceeds(j))
    ensures var failed := Step(s, SaveFails(i));
            && Enabled(failed, SaveSucceeds(j))
            && var t := Step(failed, SaveSucceeds(j)).tracker;
               (!Dirty(t) && t.currentState != t.lastPersistedState) <==>
               Present(s, i) && Present(s, j) && s.flushes[j].save.state != s.tracker.lastPersistedState
  {
    StartIsConsistent(start);
    ConsistentRun(start, events, s);
    SavesInConsistent(s, i);
    SavesInConsistent(s, j);
    TwinInConsistent(s.tracker, s.flushes[i].save, s.flushes[j].save);
    TwinSteps(s, i, j);
  }

  /** Convergence: a failure-free run that strands nothing and has come to rest has saved what is
      on screen. */
  lemma Convergence(start: System, events: seq<Event>, s: System)
    requires Start(start) && OrderlyRun(start, events, s) && StrandsNothing(events) && Idle(s)
    ensures s.disk == s.tracker.currentState
    ensures s.tracker.currentGen == s.tracker.lastPersistedGen
  {
    StartIsConsistent(start);
    StartIsAttended(start);
    AttendedRun(start, events, s);
    NothingPendingMeansSaved(start, events, s);
  }

  // ------------------------------------------------------------ what follows a save

  /** A settled flush stays as it is until it goes on. */
  lemma {:induction false} SettledStays(s: System, i: nat, events: seq<Event>, s': System)
    requires i < |s.flushes| && s.flushes[i].Settled? && Leads(s, events, s') && FollowUp(i) !in events
    ensures i < |s'.flushes| && s'.flushes[i] == s.flushes[i]
    decreases |events|
  {
    if events != [] {
      assert events[0] != FollowUp(i) && forall e :: e in events[1..] ==> e in events;
      SettledStays(Step(s, events[0]), i, events[1..], s');
    }
  }

  /** A save that fails in its own epoch is not tried again: whatever happens before the flush goes on,
      its follow-up begins no save, waits for none, and leaves the tracker alone. A backend that is down
      is not asked again until the next edit or flush. */
  lemma FailedSaveIsNotRetried(s: System, i: nat, events: seq<Event>, s': System)
    requires Enabled(s, SaveFails(i)) && s.flushes[i].save.epoch == s.tracker.hydrationEpoch
    requires Leads(Step(s, SaveFails(i)), events, s') && FollowUp(i) !in events
    ensures Enabled(s', FollowUp(i))
    ensures var next := Step(s', FollowUp(i));
            && next.tracker == s'.tracker
            && (forall j: nat :: InFlight(next, j) <==> InFlight(s', j))
            && (forall j: nat :: j < |next.flushes| && next.flushes[j].Awaiting? ==> j < |s'.flushes| && s'.flushes[j].Awaiting?)
  {
    SettledStays(Step(s, SaveFails(i)), i, events, s');
  }

  /** The save came back and newer state is pending, or the save is of an older epoch. */
  predicate CallsForMore(s: System, e: Event)
    requires Enabled(s, e) && (e.SaveSucceeds? || e.SaveFails?)
  {
    e.SaveSucceeds? || s.flushes[e.i].save.epoch != s.tracker.hydrationEpoch
  }

  /** What the follow-up of a settled save does while something is pending: after a success, or any outcome
      of a save of an older epoch, it begins a save of the present state, or waits for the one in flight;
      after a failure in its own epoch it does nothing. */
  lemma FollowUpExactly(s: System, e: Event, events: seq<Event>, s': System)
    requires Enabled(s, e) && (e.SaveSucceeds? || e.SaveFails?)
    requires Leads(Step(s, e), events, s') && FollowUp(e.i) !in events && Dirty(s'.tracker)
    ensures Enabled(s', FollowUp(e.i))
    ensures var next, t := Step(s', FollowUp(e.i)), s'.tracker;
            && |next.flushes| == |s'.flushes| + 1
            && next.flushes[|s'.flushes|] ==
                 if !CallsForMore(s, e) then Finished
                 else if t.inFlightPromise.Some? then Awaiting(t.inFlightPromise.value, true)
                 else Saving(Save(t.currentGen, t.hydrationEpoch, t.currentState))
  {
    SettledStays(Step(s, e), e.i, events, s');
  }

  /** A save of an older epoch leaves the tracker pending, whatever came of it, so that its follow-up has
      something to do. */
  lemma StaleSaveLeavesPending(s: System, e: Event)
    requires Enabled(s, e) && (e.SaveSucceeds? || e.SaveFails?)
    requires s.flushes[e.i].save.epoch != s.tracker.hydrationEpoch
    ensures Dirty(Step(s, e).tracker)
  {
    var save := s.flushes[e.i].save;
    assert Settling(s.tracker, save, if e.SaveFails? then SaveFailed(s.tracker, save) else SaveSucceeded(s.tracker, save));
  }

  // ------------------------------------------------------------ twins occur

  lemma {:induction false} LeadsAndStep(a: System, events: seq<Event>, s: System, e: Event)
    requires Leads(a, events, s) && Enabled(s, e)
    ensures Leads(a, events + [e], Step(s, e))
    decreases |events|
  {
    if events == [] {
      assert [e][1..] == [];
    } else {
      assert (events + [e])[1..] == events[1..] + [e];
      LeadsAndStep(Step(a, events[0]), events[1..], s, e);
    }
  }

  ghost predicate Reached(events: seq<Event>, s: System, t: Tracker, flushes: seq<Flush>, landed: set<nat>, disk: State) {
    && Leads(StartedByInit(map[], map[]), events, s)
    && s.tracker == t && s.flushes == flushes && s.landed == landed && s.disk == disk
  }

  lemma Take(events: seq<Event>, s: System, e: Event) returns (events': seq<Event>, s': System)
    requires Leads(StartedByInit(map[], map[]), events, s) && Enabled(s, e)
    ensures Leads(StartedByInit(map[], map[]), events', s') && s' == Step(s, e)
  {
    LeadsAndStep(StartedByInit(map[], map[]), events, s, e);
    events', s' := events + [e], Step(s, e);
  }

  /** A save of `a` is in flight and another flush waits for it. */
  lemma OneFlushWaits(a: State) returns (events: seq<Event>, s: System)
    ensures Reached(events, s, Tracker(1, a, 0, map[], false, Some(1), Some(1), Some(0), 1),
                    [Saving(Save(1, 1, a)), Awaiting(0, true)], {}, map[])
  {
    events, s := Take([], StartedByInit(map[], map[]), Schedule(a, true));
    events, s := Take(events, s, FlushCalled(true));
  }

  lemma FirstSaveReturns(a: State, b: State) returns (events: seq<Event>, s: System)
    ensures Reached(events, s, Tracker(2, b, 1, a, true, None, None, None, 1),
                    [Settled(false, false), Awaiting(0, true), Finished], {0}, a)
  {
    events, s := OneFlushWaits(a);
    events, s := Take(events, s, Schedule(b, false));
    events, s := Take(events, s, WriteLands(0));
    events, s := Take(events, s, SaveSucceeds(0));
  }

  /** `b` is scheduled and the save of `a` comes back. The flush that began it continues first, as its
      `await` was registered first, and finds `b` to save; then the flush that waited does the same: two
      saves of one generation are in flight. */
  lemma TwoSavesInFlight(a: State, b: State) returns (events: seq<Event>, s: System)
    ensures Reached(events, s, Tracker(2, b, 1, a, false, Some(2), Some(1), Some(1), 1),
                    [Finished, Saving(Save(2, 1, b)), Finished, Saving(Save(2, 1, b))], {0}, a)
  {
    events, s := FirstSaveReturns(a, b);
    events, s := Take(events, s, FollowUp(0));
    events, s := Take(events, s, Resume(1));
  }

  lemma OneFailsOneSucceeds(a: State, b: State) returns (events: seq<Event>, s: System)
    ensures Reached(events, s, Tracker(2, a, 2, b, false, None, None, None, 1),
                    [Finished, Settled(false, true), Finished, Settled(false, false)], {0, 3}, b)
  {
    events, s := TwoSavesInFlight(a, b);
    events, s := Take(events, s, SaveFails(1));
    events, s := Take(events, s, WriteLands(3));
    events, s := Take(events, s, SaveSucceeds(3));
  }

  /** When one of the twins fails and the other succeeds, the scheduler comes to rest with nothing pending
      while the screen shows `a` and the disk holds `b`. */
  lemma FailedTwinDiverges(a: State, b: State) returns (events: seq<Event>, s: System)
    ensures Leads(StartedByInit(map[], map[]), events, s) && Idle(s) && !Dirty(s.tracker)
    ensures s.tracker.currentState == a && s.disk == b
  {
    events, s := OneFailsOneSucceeds(a, b);
    events, s := Take(events, s, FollowUp(1));
    events, s := Take(events, s, FollowUp(3));
  }
}

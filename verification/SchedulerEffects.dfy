/** What each call and each reply leaves in a tool's tracker (src/lib/persistence-scheduler.ts). */
module SchedulerEffects {
  import opened Common
  import opened StatePersistence
  import opened SchedulerRuns

  // ------------------------------------------------------------ calls

  /** Nothing waits: no timer, no save in flight, nothing unsaved, both states the given one. */
  predicate AtRest(t: Tracker, state: State, epoch: nat) {
    && !t.timer && t.inFlightGen == None && t.inFlightEpoch == None && t.inFlightPromise == None
    && t.currentGen == t.lastPersistedGen == 0 && t.currentState == state && t.lastPersistedState == state
    && t.hydrationEpoch == epoch
  }

  /** A new tool is at rest; its first init begins the first epoch. */
  lemma FirstUse(state: State, disk: State)
    ensures AtRest(Created(state), state, 0) && AtRest(StartedByInit(state, disk).tracker, state, 1)
    ensures StartedByInit(state, disk).flushes == [] && StartedByInit(state, disk).disk == disk
    ensures StartedBySchedule(state, false, disk).disk == disk && StartedBySchedule(state, false, disk).tracker.currentState == state
    ensures StartedBySchedule(state, true, disk).disk == disk && StartedBySchedule(state, true, disk).flushes == [Saving(Save(1, 0, state))]
  {
  }

  /** The history that rollback safety speaks of: what the last init was given, and the states saved
      successfully since then, saves of an older epoch apart. */
  lemma HistoryTells(s: System, e: Event)
    requires Enabled(s, e)
    ensures Step(s, e).hydrated == if e.Init? then e.state else s.hydrated
    ensures Step(s, e).changes == if e.Init? || e.Schedule? then s.changes + 1 else s.changes
    ensures Step(s, e).succeeded ==
              if e.Init? then {}
              else if e.SaveSucceeds? && s.flushes[e.i].save.epoch == s.tracker.hydrationEpoch
              then s.succeeded + {s.flushes[e.i].save.state} else s.succeeded
  {
  }

  /** An init drops the timer and what was unsaved and begins a new epoch; a save in flight stays so. */
  lemma InitHydrates(s: System, state: State)
    ensures var t, t' := s.tracker, Step(s, Init(state)).tracker;
      && !t'.timer && t'.hydrationEpoch == t.hydrationEpoch + 1 && t'.currentGen == t'.lastPersistedGen == 0
      && t'.currentState == state && t'.lastPersistedState == state
      && t'.inFlightPromise == t.inFlightPromise && t'.inFlightGen == t.inFlightGen && t'.inFlightEpoch == t.inFlightEpoch
      && Step(s, Init(state)).flushes == s.flushes
  {
  }

  /** A flush that begins now, once past its wait: it waits for the save in flight if there is one, saves
      what is unsaved if it is given the means, and is done otherwise. */
  predicate BeginsFlush(t: Tracker, canSave: bool, promise: nat, t': Tracker, flush: Flush) {
    && !t'.timer && t'.currentGen == t.currentGen && t'.currentState == t.currentState
    && t'.lastPersistedGen == t.lastPersistedGen && t'.lastPersistedState == t.lastPersistedState
    && t'.hydrationEpoch == t.hydrationEpoch
    && if t.inFlightPromise.Some? then KeepsFlight(t, t') && flush == Awaiting(t.inFlightPromise.value, canSave)
       else Continues(t, canSave, promise, t', flush)
  }

  predicate KeepsFlight(t: Tracker, t': Tracker) {
    t'.inFlightPromise == t.inFlightPromise && t'.inFlightGen == t.inFlightGen && t'.inFlightEpoch == t.inFlightEpoch
  }

  predicate Continues(t: Tracker, canSave: bool, promise: nat, t': Tracker, flush: Flush) {
    if t.currentGen > t.lastPersistedGen && canSave then
      && flush == Saving(Save(t.currentGen, t.hydrationEpoch, t.currentState))
      && t'.inFlightPromise == Some(promise) && t'.inFlightGen == Some(t.currentGen) && t'.inFlightEpoch == Some(t.hydrationEpoch)
    else KeepsFlight(t, t') && flush == Finished
  }

  /** An edit is the next generation. It arms the timer, or flushes at once if asked to. */
  lemma EditBeginsAGeneration(s: System, state: State, immediate: bool)
    ensures var t, s' := s.tracker, Step(s, Schedule(state, immediate));
            var edited := t.(currentGen := t.currentGen + 1, currentState := state);
      && |s'.flushes| == |s.flushes| + 1 && s'.flushes[..|s.flushes|] == s.flushes
      && (immediate ==> BeginsFlush(edited, true, |s.flushes|, s'.tracker, s'.flushes[|s.flushes|]))
      && (!immediate ==> s'.tracker == edited.(timer := true) && s'.flushes[|s.flushes|] == Finished)
  {
  }

  lemma FlushBegins(s: System, canSave: bool)
    ensures var s' := Step(s, FlushCalled(canSave));
      && |s'.flushes| == |s.flushes| + 1 && s'.flushes[..|s.flushes|] == s.flushes
      && BeginsFlush(s.tracker, canSave, |s.flushes|, s'.tracker, s'.flushes[|s.flushes|])
  {
  }

  /** The timer flushes with the means to save; a cancellation only stops the timer. */
  lemma TimerFlushes(s: System)
    ensures s.tracker.timer ==> Step(s, TimerFires) == Step(s, FlushCalled(true))
    ensures Step(s, Cancel) == s.(tracker := s.tracker.(timer := false))
  {
  }

  /** A flush whose wait is over goes on without looking for another save in flight. */
  lemma WaitingGoesOn(s: System, i: nat)
    requires Enabled(s, Resume(i))
    ensures var s' := Step(s, Resume(i));
      && |s'.flushes| == |s.flushes| && (forall j: nat :: j < |s.flushes| && j != i ==> s'.flushes[j] == s.flushes[j])
      && Continues(s.tracker, s.flushes[i].hasSaveFn, i, s'.tracker, s'.flushes[i])
      && s'.tracker.timer == s.tracker.timer && s'.tracker.currentGen == s.tracker.currentGen
      && s'.tracker.currentState == s.tracker.currentState && s'.tracker.lastPersistedGen == s.tracker.lastPersistedGen
  {
  }

  // ------------------------------------------------------------ replies

  /** The tracker says that this save is the one in flight. */
  predicate IsFlight(t: Tracker, save: Save) { t.inFlightGen == Some(save.gen) && t.inFlightEpoch == Some(save.epoch) }

  /** Whether a save succeeds or fails, it gives up its own place in flight and no other save's: a newer
      save that is out keeps flushes waiting. The flush asks for a reconciliation exactly when the tool was
      hydrated since. */
  lemma ReplyReleasesItsOwn(s: System, e: Event)
    requires Enabled(s, e) && (e.SaveSucceeds? || e.SaveFails?)
    ensures var save, s' := s.flushes[e.i].save, Step(s, e);
      && s'.flushes == s.flushes[e.i := Settled(save.epoch != s.tracker.hydrationEpoch, e.SaveFails?)]
      && if IsFlight(s.tracker, save)
         then s'.tracker.inFlightPromise == None && s'.tracker.inFlightGen == None && s'.tracker.inFlightEpoch == None
         else KeepsFlight(s.tracker, s'.tracker)
  {
    var t, save := s.tracker, s.flushes[e.i].save;
    var r := if e.SaveFails? then SaveFailed(t, save) else SaveSucceeded(t, save);
    assert r.1 == Settled(save.epoch != t.hydrationEpoch, e.SaveFails?);
    assert Step(s, e).tracker == r.0 && Step(s, e).flushes == s.flushes[e.i := r.1];
  }

  /** The overlay is what is on screen and differs from what is saved, while anything is unsaved. */
  lemma OverlayTells(t: Tracker, key: string)
    ensures key in DirtyOverlay(t) <==>
              && t.currentGen > t.lastPersistedGen && key in t.currentState
              && (key !in t.lastPersistedState || t.lastPersistedState[key] != t.currentState[key])
    ensures key in DirtyOverlay(t) ==> DirtyOverlay(t)[key] == t.currentState[key]
  {
  }
}

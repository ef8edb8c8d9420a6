/** Reload of the open tool after a Sync (the merge part of `selectTool` in src/stores/app-store.ts)
    with the merge helpers of src/lib/preservation.ts. */
module SyncReload {
  import opened Common
  import opened StatePersistence
  import opened SchedulerRuns
  import opened SchedulerProgress

  function Get(m: State, k: string): Option<Value> { if k in m then Some(m[k]) else None }

  /** Keys trimmed, blanks dropped. */
  function Cleaned(keys: set<string>): set<string> { set k | k in keys && Trim(k) != "" :: Trim(k) }

  /** Keys whose persisted baseline differs from what the server now holds. */
  function InferBaselineResetKeys(lastPersisted: State, canonical: State): set<string> {
    set k | k in lastPersisted && Get(canonical, k) != Some(lastPersisted[k])
  }

  function MergeDirtyReconcileResetKeys(lastPersisted: State, canonical: State, explicit: set<string>): set<string> {
    InferBaselineResetKeys(lastPersisted, canonical) + Cleaned(explicit)
  }

  function Reconciled(canonical: State, dirty: State, resetKeys: set<string>): State {
    canonical + map k | k in dirty && k !in Cleaned(resetKeys) :: dirty[k]
  }

  method ReconcileDirtyOverCanonical(canonical: State, dirty: State, resetKeys: set<string>) returns (next: State)
    ensures forall k :: k in dirty && k !in Cleaned(resetKeys) ==> k in next && next[k] == dirty[k]
    ensures forall k :: !(k in dirty && k !in Cleaned(resetKeys)) ==> Get(next, k) == Get(canonical, k)
    ensures next == Reconciled(canonical, dirty, resetKeys)
  {
    var blocked := Cleaned(resetKeys);
    next := canonical;
    var todo := dirty.Keys;
    while todo != {}
      invariant todo <= dirty.Keys
      invariant next == canonical + map k | k in dirty && k !in todo && k !in blocked :: dirty[k]
      decreases todo
    {
      var key :| key in todo;
      todo := todo - {key};
      if key !in blocked {
        next := next[key := dirty[key]];
      }
    }
  }

  /** What the tool shows after the reload. `before` is the tracker when the reload was asked for;
      `server` is what it then read, tool state overlaid with surface state. */
  function ReloadedState(before: Tracker, server: State, explicit: set<string>): State {
    var overlay := DirtyOverlay(before);
    if overlay == map[] then server
    else Reconciled(server, overlay, MergeDirtyReconcileResetKeys(before.lastPersistedState, server, explicit))
  }

  /** The tracker after the reload; `now` is the tracker once the reads have come back. */
  function ReloadedTracker(before: Tracker, now: Tracker, server: State, explicit: set<string>): Tracker {
    var state := ReloadedState(before, server, explicit);
    if DirtyOverlay(before) == map[] then Hydrated(now, state)
    else Changed(Hydrated(now, state), state).(timer := true)
  }

  /** The scheduler part of the reload, on the tracker object. */
  method Reload(scheduler: PersistenceScheduler, toolId: string, ghost before: Tracker,
                dirtyOverlay: State, lastPersistedBefore: State, server: State, explicit: set<string>)
    returns (reconciled: State)
    requires scheduler.Valid() && toolId in scheduler.trackers
    requires dirtyOverlay == DirtyOverlay(before) && lastPersistedBefore == before.lastPersistedState
    modifies scheduler, scheduler.trackers.Values
    ensures scheduler.Valid() && scheduler.OnlyTouched(toolId)
    ensures reconciled == ReloadedState(before, server, explicit)
    ensures scheduler.trackers[toolId].View()
            == ReloadedTracker(before, old(scheduler.trackers[toolId].View()), server, explicit)
  {
    if dirtyOverlay == map[] {
      reconciled := server;
      scheduler.InitToolState(toolId, reconciled);
    } else {
      var resetKeys := MergeDirtyReconcileResetKeys(lastPersistedBefore, server, explicit);
      reconciled := ReconcileDirtyOverCanonical(server, dirtyOverlay, resetKeys);
      scheduler.InitToolState(toolId, reconciled);
      var _ := scheduler.Schedule(toolId, reconciled, false, 0);
    }
  }

  // The three-way merge law

  predicate ServerChanged(base: State, server: State, k: string) {
    k in base && Get(server, k) != Some(base[k])
  }

  /** Key by key: the server's value if it changed the baseline, if the key is an explicit reset, or
      if there is no local edit; the local edit otherwise. */
  ghost predicate ThreeWay(before: Tracker, server: State, explicit: set<string>) {
    var base, local := before.lastPersistedState, DirtyOverlay(before);
    forall k ::
      Get(ReloadedState(before, server, explicit), k) ==
      if ServerChanged(base, server, k) || k in Cleaned(explicit) || k !in local
      then Get(server, k) else Get(local, k)
  }

  predicate KeysAreClean(s: State) { forall k :: k in s ==> Trimmed(k) && k != "" }

  /** The reload is the three-way merge whenever the persisted keys carry no white space. */
  lemma ReloadIsThreeWayMerge(before: Tracker, server: State, explicit: set<string>)
    requires KeysAreClean(before.lastPersistedState)
    ensures ThreeWay(before, server, explicit)
  {
    var base, local := before.lastPersistedState, DirtyOverlay(before);
    var inferred := InferBaselineResetKeys(base, server);
    var reset := MergeDirtyReconcileResetKeys(base, server, explicit);
    forall k ensures k in Cleaned(reset) <==> ServerChanged(base, server, k) || k in Cleaned(explicit) {
      if k in Cleaned(reset) {
        var r :| r in reset && Trim(r) != "" && Trim(r) == k;
        if r in Cleaned(explicit) {
          var x :| x in explicit && Trim(x) == r;
          TrimShape(x);
        }
      }
      if k in Cleaned(explicit) {
        var x :| x in explicit && Trim(x) == k && Trim(x) != "";
        TrimShape(x);
        assert k in reset;
      }
      if ServerChanged(base, server, k) { assert k in reset && Trim(k) == k; }
    }
  }

  /** And only then: persisted values with a blank or padded key admit an edit and a server state
      for which the reload is not the three-way merge. */
  lemma PaddedKeyBreaksTheMerge(base: State, k: string, v: Value) returns (before: Tracker, server: State)
    requires k in base && !(Trimmed(k) && k != "") && v != base[k]
    ensures before.lastPersistedState == base && !ThreeWay(before, server, {})
  {
    before := Tracker(1, base[k := v], 0, base, true, None, None, None, 1);
    server := map j | j in base && j != k :: base[j];
    var local := DirtyOverlay(before);
    assert local == map[k := v];
    assert InferBaselineResetKeys(base, server) == {k};
    TrimShape(k);
    assert k !in Cleaned({k});
    assert MergeDirtyReconcileResetKeys(base, server, {}) == {k} by { assert Cleaned({}) == {}; }
    assert local != map[] by { assert k in local; }
    assert ReloadedState(before, server, {}) == Reconciled(server, local, {k});
    assert Get(ReloadedState(before, server, {}), k) == Some(v);
    assert ServerChanged(base, server, k) && Get(server, k) == None;
  }

  lemma CleanKeysExactlyCharacteriseTheMerge(base: State)
    ensures KeysAreClean(base) <==>
            forall before: Tracker, server, explicit :: before.lastPersistedState == base ==> ThreeWay(before, server, explicit)
  {
    if KeysAreClean(base) {
      forall before: Tracker, server, explicit | before.lastPersistedState == base
        ensures ThreeWay(before, server, explicit)
      {
        ReloadIsThreeWayMerge(before, server, explicit);
      }
    } else {
      var k :| k in base && !(Trimmed(k) && k != "");
      var v := if base[k] == Primitive(0) then Primitive(1) else Primitive(0);
      var before, server := PaddedKeyBreaksTheMerge(base, k, v);
    }
  }

  // What the merge takes for an edit and for a change

  /** A key that was changed, added or deleted locally since it was last persisted. */
  predicate EditedLocally(before: Tracker, k: string) {
    Dirty(before) && Get(before.currentState, k) != Get(before.lastPersistedState, k)
  }

  /** The three-way merge in which deleting a key is an edit as well. */
  function MergedWithDeletions(before: Tracker, server: State, explicit: set<string>, k: string): Option<Value> {
    if ServerChanged(before.lastPersistedState, server, k) || k in Cleaned(explicit) || !EditedLocally(before, k)
    then Get(server, k) else Get(before.currentState, k)
  }

  /** The overlay lists present keys only: the reload is the merge with deletions at a key exactly unless
      it was deleted locally and the server neither changed nor reset it. Then the deleted value comes back. */
  lemma DeletedKeyComesBackExactly(before: Tracker, server: State, explicit: set<string>, k: string)
    requires KeysAreClean(before.lastPersistedState)
    ensures var base, reloaded := before.lastPersistedState, Get(ReloadedState(before, server, explicit), k);
            var deleted := && Dirty(before) && k in base && k !in before.currentState
                           && !ServerChanged(base, server, k) && k !in Cleaned(explicit);
            && (reloaded == MergedWithDeletions(before, server, explicit, k) <==> !deleted)
            && (deleted ==> reloaded == Some(base[k]))
  {
    ReloadIsThreeWayMerge(before, server, explicit);
    assert ThreeWay(before, server, explicit);
    assert k in DirtyOverlay(before) <==> EditedLocally(before, k) && k in before.currentState;
  }

  /** The server's state was parsed anew: none of its objects or arrays is one of the baseline's. */
  predicate Reparsed(base: State, server: State) {
    forall j, k :: j in server && k in base && server[j].Reference? ==> server[j] != base[k]
  }

  /** Values are compared by identity, and a reparsed object or array is never identical to the old one:
      a local edit of a persisted key survives the reload exactly when the persisted value is a primitive
      that the server still holds. */
  lemma EditSurvivesReparseExactly(before: Tracker, server: State, explicit: set<string>, k: string)
    requires KeysAreClean(before.lastPersistedState) && Reparsed(before.lastPersistedState, server)
    requires k in before.lastPersistedState && k in DirtyOverlay(before) && k !in Cleaned(explicit)
    requires Get(server, k) != Some(before.currentState[k])
    ensures Get(ReloadedState(before, server, explicit), k) == Some(before.currentState[k]) <==>
            before.lastPersistedState[k].Primitive? && Get(server, k) == Some(before.lastPersistedState[k])
  {
    ReloadIsThreeWayMerge(before, server, explicit);
    assert ThreeWay(before, server, explicit);
  }

  // What becomes of the merged edit

  lemma OrderWithoutTracker(s: System, s': System)
    requires OrderOk(s) && TopOk(s)
    requires s'.flushes == s.flushes && s'.issues == s.issues && s'.landed == s.landed && s'.top == s.top && s'.disk == s.disk
    ensures OrderOk(s') && TopOk(s')
  {
    assert forall j: nat :: Unlanded(s', j) <==> Unlanded(s, j);
  }

  lemma AllOfThePast(s: System, s': System)
    requires (forall i :: 0 <= i < |s.flushes| ==> FlushOk(s, i)) && s'.flushes == s.flushes && s'.issues == s.issues
    requires s'.tracker.hydrationEpoch > s.tracker.hydrationEpoch
    ensures (forall i :: 0 <= i < |s'.flushes| ==> FlushOk(s', i)) && PresentOk(s')
  {
    forall j | 0 <= j < |s'.flushes| ensures FlushOk(s', j) && !Present(s', j) {
      assert FlushOk(s, j);
    }
  }

  /** A new epoch with one change in it. */
  lemma FreshEpoch(s: System, s': System)
    requires Consistent(s)
    requires s'.flushes == s.flushes && s'.issues == s.issues && s'.landed == s.landed && s'.top == s.top && s'.disk == s.disk
    requires s'.tracker.hydrationEpoch > s.tracker.hydrationEpoch
    requires s'.tracker.currentGen == 1 && s'.tracker.lastPersistedGen == 0
    ensures Consistent(s')
  {
    OrderWithoutTracker(s, s');
    AllOfThePast(s, s');
  }

  /** Hydrating with what is not on disk is only an intermediate state: the change that follows makes the
      tracker dirty. */
  lemma HydratedThenChanged(s: System, state: State)
    requires Consistent(s)
    ensures var h := Step(s, Init(state));
            Consistent(h.(changes := h.changes + 1, tracker := Changed(h.tracker, state)))
  {
    var h := Step(s, Init(state));
    FreshEpoch(s, h.(changes := h.changes + 1, tracker := Changed(h.tracker, state)));
  }

  /** The reload as the scheduler sees it: an init, then a schedule if there was an overlay. */
  lemma ReloadOfConsistent(s: System, state: State)
    requires Consistent(s) && AllCanSave(s)
    ensures var s' := Step(Step(s, Init(state)), Schedule(state, false));
      && Consistent(s') && Attended(s')
      && s'.tracker == Changed(Hydrated(s.tracker, state), state).(timer := true)
  {
    var h := Step(s, Init(state));
    var c := h.(changes := h.changes + 1, tracker := Changed(h.tracker, state));
    HydratedThenChanged(s, state);
    var r := Scheduled(h.tracker, state, false, |s.flushes|);
    ScheduleIsChangeAndLaunch(h, state, false);
    ConsistentLaunched(c, r);
    AttendedLaunched(c, r);
  }

  /** After a reload that merged an edit, the merged state is pending, and it reaches the disk. */
  lemma MergedEditIsSaved(s: System, before: Tracker, server: State, explicit: set<string>)
    returns (s': System, events: seq<Event>, rest: System)
    requires Consistent(s) && AllCanSave(s) && DirtyOverlay(before) != map[]
    ensures s'.tracker == ReloadedTracker(before, s.tracker, server, explicit) && Dirty(s'.tracker)
    ensures OrderlyRun(s', events, rest) && InternalOnly(events) && Idle(rest)
    ensures rest.disk == rest.tracker.currentState == ReloadedState(before, server, explicit)
  {
    var state := ReloadedState(before, server, explicit);
    s' := Step(Step(s, Init(state)), Schedule(state, false));
    ReloadOfConsistent(s, state);
    events, rest := DrainSaves(s');
  }

  /** A second reload before the save: the overlay is gone, because init made the merged state the
      baseline. The tool then shows exactly what the server holds and nothing is pending. */
  lemma SecondReloadForgetsTheEdit(before: Tracker, now: Tracker, server: State, explicit: set<string>, server': State)
    ensures var t := ReloadedTracker(before, now, server, explicit);
      && DirtyOverlay(t) == map[]
      && ReloadedState(t, server', explicit) == server'
      && !Dirty(ReloadedTracker(t, t, server', explicit)) && !ReloadedTracker(t, t, server', explicit).timer
  {
  }

  /** An init while a save is in flight, then nothing but internal steps: whatever state the save carried
      and whenever it lands, at rest the disk holds what the init was given. */
  lemma InternalRunAfterInit(s: System, i: nat, server: State, events: seq<Event>, rest: System)
    requires Consistent(s) && AllCanSave(s) && InFlight(s, i)
    requires OrderlyRun(Step(s, Init(server)), events, rest) && InternalOnly(events) && Idle(rest)
    ensures rest.disk == rest.tracker.currentState == server && !Dirty(rest.tracker)
  {
    var h := Step(s, Init(server));
    ConsistentStep(s, Init(server));
    assert forall e :: e in events ==> !Strands(e);
    ConsistentRun(h, events, rest);
    AttendedRun(h, events, rest);
    InternalRunKeepsScreen(h, events, rest);
    ConsistentAtRest(rest);
  }

  lemma {:induction false} InternalRunKeepsScreen(s: System, events: seq<Event>, s': System)
    requires OrderlyRun(s, events, s') && InternalOnly(events)
    ensures s'.tracker.currentState == s.tracker.currentState
    decreases |events|
  {
    if events != [] {
      assert events[0] in events && forall e :: e in events[1..] ==> e in events;
      InternalKeepsScreen(s, events[0]);
      InternalRunKeepsScreen(Step(s, events[0]), events[1..], s');
    }
  }

  /** A second reload while the save of the merged state is in flight. Its overlay is empty, so it hydrates
      what the server held before that save; the save still lands, and then the follow-up flush writes the
      older server state over the edit, on every run to rest, and there is one. */
  lemma SecondReloadOverwritesTheSave(s: System, i: nat, server: State, explicit: set<string>)
    returns (events: seq<Event>, rest: System)
    requires Consistent(s) && AllCanSave(s) && Unlanded(s, i) && Orderly(s, WriteLands(i))
    requires DirtyOverlay(s.tracker) == map[]
    ensures var state := ReloadedState(s.tracker, server, explicit);
            var reloaded := Step(s, Init(state));
            && state == server && reloaded.tracker == ReloadedTracker(s.tracker, s.tracker, server, explicit)
            && Enabled(reloaded, WriteLands(i)) && Step(reloaded, WriteLands(i)).disk == s.flushes[i].save.state
            && OrderlyRun(Step(reloaded, WriteLands(i)), events, rest) && InternalOnly(events) && Idle(rest)
    ensures rest.disk == rest.tracker.currentState == server && !Dirty(rest.tracker)
  {
    var reloaded := Step(s, Init(server));
    ConsistentStep(s, Init(server));
    var landed := Step(reloaded, WriteLands(i));
    assert forall j: nat :: Unlanded(reloaded, j) <==> Unlanded(s, j);
    assert Orderly(reloaded, WriteLands(i));
    ConsistentStep(reloaded, WriteLands(i));
    assert Attended(landed);
    events, rest := DrainSaves(landed);
  }

  // What becomes of an edit made while the reload was reading

  /** The last local value of a key, present or deleted, is still shown after the reload exactly when: at a
      key where the merge kept an edit that was there when the reload was asked for, it was not changed
      since; and elsewhere, when the server holds it. `now` may differ from `before` in any way. */
  lemma LastLocalValueSurvivesExactly(before: Tracker, now: Tracker, server: State, explicit: set<string>, k: string)
    requires KeysAreClean(before.lastPersistedState)
    ensures var base := before.lastPersistedState;
            var kept := k in DirtyOverlay(before) && !ServerChanged(base, server, k) && k !in Cleaned(explicit);
            var shown := Get(ReloadedTracker(before, now, server, explicit).currentState, k);
            shown == Get(now.currentState, k) <==>
              if kept then Get(now.currentState, k) == Get(before.currentState, k) else Get(server, k) == Get(now.currentState, k)
  {
    ReloadIsThreeWayMerge(before, server, explicit);
    assert ThreeWay(before, server, explicit);
  }

  /** So an edit made between the reading of the overlay and the hydration is discarded, unless the server
      happens to hold its value and no older edit of the key is merged over it; nothing is pending for it
      afterwards. */
  lemma EditWhileReadingIsDiscarded(before: Tracker, now: Tracker, server: State, explicit: set<string>, k: string)
    requires KeysAreClean(before.lastPersistedState)
    requires Get(now.currentState, k) != Get(before.currentState, k)
    requires Get(server, k) != Get(now.currentState, k)
    ensures var t := ReloadedTracker(before, now, server, explicit);
            && Get(t.currentState, k) != Get(now.currentState, k)
            && DirtyOverlay(t) == map[]
  {
    LastLocalValueSurvivesExactly(before, now, server, explicit, k);
  }
}

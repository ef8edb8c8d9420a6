/** One tool's tracker and the scheduler that owns them (src/lib/persistence-scheduler.ts).

    `await` cuts a flush into segments that run without interruption. Each segment is given twice:
    as a function on `Tracker` values, which the run theorems in SchedulerRuns.dfy use, and as a
    method that updates the tracker object field by field. */
module StatePersistence {
  import opened Common

  type State = map<string, Value>

  datatype Tracker = Tracker(
    currentGen: int,
    currentState: State,
    lastPersistedGen: int,
    lastPersistedState: State,
    timer: bool,
    inFlightGen: Option<int>,
    inFlightEpoch: Option<nat>,
    inFlightPromise: Option<nat>,
    hydrationEpoch: nat)

  /** What a save captured when it began. */
  datatype Save = Save(gen: int, epoch: nat, state: State)

  /** Where a flush stands between two segments. Promise ids number the flushes. */
  datatype Flush =
    | Awaiting(promise: nat, hasSaveFn: bool)
    | Saving(save: Save)
    | Settled(reconcile: bool, failed: bool)
    | Finished

  function Created(state: State): Tracker {
    Tracker(0, state, 0, state, false, None, None, None, 0)
  }

  function Hydrated(t: Tracker, state: State): Tracker {
    t.(timer := false, hydrationEpoch := t.hydrationEpoch + 1, currentGen := 0, lastPersistedGen := 0,
       currentState := state, lastPersistedState := state)
  }

  function Changed(t: Tracker, state: State): Tracker {
    t.(currentGen := t.currentGen + 1, currentState := state, timer := false)
  }

  predicate Dirty(t: Tracker) { t.currentGen > t.lastPersistedGen }

  /** A flush from the point where it looks at the generations. */
  function FlushBody(t: Tracker, promise: nat, hasSaveFn: bool): (Tracker, Flush) {
    if Dirty(t) && hasSaveFn then
      (t.(inFlightGen := Some(t.currentGen), inFlightEpoch := Some(t.hydrationEpoch),
          inFlightPromise := Some(promise)),
       Saving(Save(t.currentGen, t.hydrationEpoch, t.currentState)))
    else
      (t, Finished)
  }

  /** A flush from its first line to its first suspension. */
  function FlushStart(t: Tracker, promise: nat, hasSaveFn: bool): (Tracker, Flush) {
    var t := t.(timer := false);
    if t.inFlightPromise.Some? then (t, Awaiting(t.inFlightPromise.value, hasSaveFn))
    else FlushBody(t, promise, hasSaveFn)
  }

  function Scheduled(t: Tracker, state: State, immediate: bool, promise: nat): (Tracker, Flush) {
    var t := Changed(t, state);
    if immediate then FlushStart(t, promise, true) else (t.(timer := true), Finished)
  }

  function Released(t: Tracker, save: Save): Tracker {
    if t.inFlightGen == Some(save.gen) && t.inFlightEpoch == Some(save.epoch)
    then t.(inFlightGen := None, inFlightEpoch := None, inFlightPromise := None)
    else t
  }

  /** A save of an older epoch came back: whatever it wrote must be overwritten. */
  function MarkedForReconcile(t: Tracker): Tracker {
    t.(lastPersistedGen := -1, currentGen := Max(t.currentGen, 1))
  }

  function SaveSucceeded(t: Tracker, save: Save): (Tracker, Flush) {
    if t.hydrationEpoch != save.epoch then (Released(MarkedForReconcile(t), save), Settled(true, false))
    else if save.gen > t.lastPersistedGen then
      (Released(t.(lastPersistedGen := save.gen, lastPersistedState := save.state), save), Settled(false, false))
    else (Released(t, save), Settled(false, false))
  }

  function SaveFailed(t: Tracker, save: Save): (Tracker, Flush) {
    if t.hydrationEpoch != save.epoch then (Released(MarkedForReconcile(t), save), Settled(true, true))
    else if t.currentGen == save.gen then
      (Released(t.(currentState := t.lastPersistedState), save), Settled(false, true))
    else (Released(t, save), Settled(false, true))
  }

  /** After `await promise`: flush again, or be done. */
  function AfterSave(t: Tracker, reconcile: bool, failed: bool, promise: nat): (Tracker, Flush) {
    if reconcile || (!failed && Dirty(t)) then FlushStart(t, promise, true) else (t, Finished)
  }

  function DirtyOverlay(t: Tracker): State {
    if !Dirty(t) then map[]
    else map k | k in t.currentState
                 && !(k in t.lastPersistedState && t.lastPersistedState[k] == t.currentState[k])
           :: t.currentState[k]
  }

  class ToolStateTracker {
    var currentGen: int
    var currentState: State
    var lastPersistedGen: int
    var lastPersistedState: State
    var timer: bool
    var inFlightGen: Option<int>
    var inFlightEpoch: Option<nat>
    var inFlightPromise: Option<nat>
    var hydrationEpoch: nat

    ghost function View(): Tracker
      reads this
    {
      Tracker(currentGen, currentState, lastPersistedGen, lastPersistedState, timer,
              inFlightGen, inFlightEpoch, inFlightPromise, hydrationEpoch)
    }

    constructor (initialState: State)
      ensures View() == Created(initialState)
    {
      currentGen, currentState := 0, initialState;
      lastPersistedGen, lastPersistedState := 0, initialState;
      timer := false;
      inFlightGen, inFlightEpoch, inFlightPromise := None, None, None;
      hydrationEpoch := 0;
    }

    /** The part of `initToolState` that runs on the tool's tracker. */
    method Hydrate(state: State)
      modifies this
      ensures View() == Hydrated(old(View()), state)
    {
      if timer {
        timer := false;
      }
      hydrationEpoch := hydrationEpoch + 1;
      currentGen := 0;
      lastPersistedGen := 0;
      currentState := state;
      lastPersistedState := state;
    }

    /** The part of `schedule` that runs on the tool's tracker. */
    method Change(state: State, immediate: bool, promise: nat) returns (flush: Flush)
      modifies this
      ensures (View(), flush) == Scheduled(old(View()), state, immediate, promise)
    {
      currentGen := currentGen + 1;
      currentState := state;
      if timer {
        timer := false;
      }
      if immediate {
        flush := StartFlush(promise, true);
      } else {
        timer := true;
        flush := Finished;
      }
    }

    method StartFlush(promise: nat, hasSaveFn: bool) returns (flush: Flush)
      modifies this
      ensures (View(), flush) == FlushStart(old(View()), promise, hasSaveFn)
    {
      timer := false;
      if inFlightPromise.Some? {
        return Awaiting(inFlightPromise.value, hasSaveFn);
      }
      flush := ContinueFlush(promise, hasSaveFn);
    }

    method ContinueFlush(promise: nat, hasSaveFn: bool) returns (flush: Flush)
      modifies this
      ensures (View(), flush) == FlushBody(old(View()), promise, hasSaveFn)
    {
      if currentGen <= lastPersistedGen {
        return Finished;
      }
      if !hasSaveFn {
        return Finished;
      }
      var saveGen := currentGen;
      var saveEpoch := hydrationEpoch;
      var stateToSave := currentState;
      inFlightGen := Some(saveGen);
      inFlightEpoch := Some(saveEpoch);
      inFlightPromise := Some(promise);
      flush := Saving(Save(saveGen, saveEpoch, stateToSave));
    }

    method OnSaveSucceeded(save: Save) returns (flush: Flush)
      modifies this
      ensures (View(), flush) == SaveSucceeded(old(View()), save)
    {
      var needsHydrationReconcile := false;
      if hydrationEpoch != save.epoch {
        needsHydrationReconcile := true;
        lastPersistedGen := -1;
        currentGen := Max(currentGen, 1);
      } else if save.gen > lastPersistedGen {
        lastPersistedGen := save.gen;
        lastPersistedState := save.state;
      }
      ReleaseInFlight(save);
      flush := Settled(needsHydrationReconcile, false);
    }

    method OnSaveFailed(save: Save) returns (flush: Flush)
      modifies this
      ensures (View(), flush) == SaveFailed(old(View()), save)
    {
      var needsHydrationReconcile := false;
      if hydrationEpoch != save.epoch {
        needsHydrationReconcile := true;
        lastPersistedGen := -1;
        currentGen := Max(currentGen, 1);
      } else if currentGen == save.gen {
        currentState := lastPersistedState;
      }
      ReleaseInFlight(save);
      flush := Settled(needsHydrationReconcile, true);
    }

    method ReleaseInFlight(save: Save)
      modifies this
      ensures View() == Released(old(View()), save)
    {
      if inFlightGen == Some(save.gen) && inFlightEpoch == Some(save.epoch) {
        inFlightGen := None;
        inFlightEpoch := None;
        inFlightPromise := None;
      }
    }
  }

  class PersistenceScheduler {
    var trackers: map<string, ToolStateTracker>

    /** Two tools never share a tracker object. */
    ghost predicate Valid()
      reads this
    {
      forall a, b :: a in trackers && b in trackers && a != b ==> trackers[a] != trackers[b]
    }

    /** The tracker of `toolId`, or the one that its first use would create. */
    ghost function TrackerOf(toolId: string, initial: State): Tracker
      reads this, trackers.Values
    {
      if toolId in trackers then trackers[toolId].View() else Created(initial)
    }

    /** Only the tracker of `toolId` changed; no tracker was dropped or replaced. */
    twostate predicate OnlyTouched(toolId: string)
      reads this, trackers.Values
    {
      && trackers.Keys == old(trackers.Keys) + {toolId}
      && (forall id :: id in old(trackers) ==> trackers[id] == old(trackers[id]))
      && (forall id :: id in old(trackers) && id != toolId ==> trackers[id].View() == old(trackers[id].View()))
    }

    constructor ()
      ensures Valid() && trackers == map[]
    {
      trackers := map[];
    }

    method GetOrCreateTracker(toolId: string, initialState: State) returns (tracker: ToolStateTracker)
      requires Valid()
      modifies this
      ensures Valid() && OnlyTouched(toolId)
      ensures tracker == trackers[toolId] && tracker.View() == old(TrackerOf(toolId, initialState))
      ensures toolId !in old(trackers) ==> fresh(tracker)
    {
      if toolId in trackers {
        tracker := trackers[toolId];
      } else {
        tracker := new ToolStateTracker(initialState);
        trackers := trackers[toolId := tracker];
      }
    }

    method InitToolState(toolId: string, state: State)
      requires Valid()
      modifies this, trackers.Values
      ensures Valid() && OnlyTouched(toolId)
      ensures trackers[toolId].View() == Hydrated(old(TrackerOf(toolId, state)), state)
    {
      var tracker := GetOrCreateTracker(toolId, state);
      tracker.Hydrate(state);
    }

    method Schedule(toolId: string, state: State, immediate: bool, promise: nat) returns (flush: Flush)
      requires Valid()
      modifies this, trackers.Values
      ensures Valid() && OnlyTouched(toolId)
      ensures (trackers[toolId].View(), flush) == Scheduled(old(TrackerOf(toolId, state)), state, immediate, promise)
    {
      var tracker := GetOrCreateTracker(toolId, state);
      flush := tracker.Change(state, immediate, promise);
    }

    method FlushTool(toolId: string, promise: nat, hasSaveFn: bool) returns (flush: Flush)
      requires Valid()
      modifies trackers.Values
      ensures Valid()
      ensures toolId !in trackers ==> flush == Finished && unchanged(trackers.Values)
      ensures toolId in trackers ==>
                && OnlyTouched(toolId)
                && (trackers[toolId].View(), flush) == FlushStart(old(trackers[toolId].View()), promise, hasSaveFn)
    {
      if toolId !in trackers {
        return Finished;
      }
      flush := trackers[toolId].StartFlush(promise, hasSaveFn);
    }

    /** `flush` without a tool id: every tool in turn, each as if it were flushed alone. Flush `i` is that
        of `order[i]` and gets promise id `base + i`. */
    method FlushAll(base: nat, hasSaveFn: bool) returns (order: seq<string>, flushes: seq<Flush>)
      requires Valid()
      modifies trackers.Values
      ensures Valid() && |flushes| == |order|
      ensures (forall i :: 0 <= i < |order| ==> order[i] in trackers) && (forall id :: id in trackers ==> id in order)
      ensures forall i, j :: 0 <= i < j < |order| ==> order[i] != order[j]
      ensures forall i :: 0 <= i < |order| ==>
                (trackers[order[i]].View(), flushes[i]) == FlushStart(old(trackers[order[i]].View()), base + i, hasSaveFn)
    {
      order, flushes := [], [];
      var todo := trackers.Keys;
      while todo != {}
        invariant Valid() && todo <= trackers.Keys && |flushes| == |order|
        invariant forall i :: 0 <= i < |order| ==> order[i] in trackers && order[i] !in todo
        invariant forall id :: id in trackers ==> id in todo || id in order
        invariant forall i, j :: 0 <= i < j < |order| ==> order[i] != order[j]
        invariant forall id :: id in todo ==> trackers[id].View() == old(trackers[id].View())
        invariant forall i :: 0 <= i < |order| ==>
                    (trackers[order[i]].View(), flushes[i]) == FlushStart(old(trackers[order[i]].View()), base + i, hasSaveFn)
        decreases todo
      {
        var id :| id in todo;
        var flush := FlushTool(id, base + |order|, hasSaveFn);
        todo := todo - {id};
        order, flushes := order + [id], flushes + [flush];
      }
    }

    /** `getPendingCount` of one tool. */
    method IsPending(toolId: string) returns (count: nat)
      ensures count == if toolId in trackers && Dirty(trackers[toolId].View()) then 1 else 0
    {
      if toolId !in trackers {
        return 0;
      }
      count := if trackers[toolId].currentGen > trackers[toolId].lastPersistedGen then 1 else 0;
    }

    /** The tools with a pending edit, counted over all trackers. */
    method GetPendingCount() returns (count: nat)
      ensures count == |set id | id in trackers && Dirty(trackers[id].View())|
    {
      count := 0;
      var todo := trackers.Keys;
      ghost var counted: set<string> := {};
      while todo != {}
        invariant todo <= trackers.Keys
        invariant counted == set id | id in trackers && id !in todo && Dirty(trackers[id].View())
        invariant count == |counted|
        decreases todo
      {
        var id :| id in todo;
        todo := todo - {id};
        if trackers[id].currentGen > trackers[id].lastPersistedGen {
          count := count + 1;
          counted := counted + {id};
        }
      }
      assert counted == set id | id in trackers && Dirty(trackers[id].View());
    }

    /** `None` stands for `null`: nothing pending, or no key differs. */
    method PeekDirtyState(toolId: string) returns (overlay: Option<State>)
      ensures toolId !in trackers ==> overlay == None
      ensures toolId in trackers ==>
                var d := DirtyOverlay(trackers[toolId].View());
                overlay == if d == map[] then None else Some(d)
    {
      if toolId !in trackers {
        return None;
      }
      var tracker := trackers[toolId];
      if tracker.currentGen <= tracker.lastPersistedGen {
        return None;
      }
      var dirty: State := map[];
      var any := false;
      var todo := tracker.currentState.Keys;
      while todo != {}
        invariant todo <= tracker.currentState.Keys
        invariant dirty == map k | k in DirtyOverlay(tracker.View()) && k !in todo :: DirtyOverlay(tracker.View())[k]
        invariant any <==> dirty.Keys != {}
        decreases todo
      {
        var key :| key in todo;
        todo := todo - {key};
        var value := tracker.currentState[key];
        if !(key in tracker.lastPersistedState && tracker.lastPersistedState[key] == value) {
          dirty := dirty[key := value];
          any := true;
        }
      }
      assert dirty == DirtyOverlay(tracker.View());
      overlay := if any then Some(dirty) else None;
    }
  }
}

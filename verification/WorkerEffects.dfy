/** What the deferred worker checks and answers, and what its world remembers of the calls made
    (src-tauri/src/maintenance.rs, src-tauri/src/state.rs). */
module WorkerEffects {
  import opened Common
  import opened DeferredWorker

  // ------------------------------------------------------------ what turns a worker away

  /** The checks between two phases of cleaning. */
  function LateVerdict(w: World, me: Worker): Option<Outcome> {
    if me.token in w.cancelled then Some(Cancelled)
    else if w.generation != me.initialGeneration then Some(SkippedGenerationChanged)
    else if w.active then Some(SkippedMaintenanceActive)
    else if w.paused then Some(SkippedQuiescence)
    else None
  }

  /** With what a worker that begins a phase is turned away, while the world stays as it is. */
  function Verdict(w: World, me: Worker, phase: Phase): Option<Outcome> {
    if phase.Entry? then
      if me.token in w.cancelled then Some(Cancelled)
      else if w.active || w.paused then Some(SkippedAlreadyRunning)
      else None
    else if phase.Unlocked? then
      if !w.ready then Some(SkippedProfileNotReady)
      else if w.active then Some(SkippedMaintenanceActive)
      else if w.paused then Some(SkippedQuiescence)
      else if w.journalBlocks then Some(SkippedRecoveryRequired)
      else if me.token in w.cancelled then Some(Cancelled)
      else if w.generation != me.initialGeneration then Some(SkippedGenerationChanged)
      else None
    else if phase.Locked? then
      if me.token in w.cancelled then Some(Cancelled)
      else if w.generation != me.initialGeneration then Some(SkippedGenerationChanged)
      else None
    else if phase.Caches? || phase.Sweep? then LateVerdict(w, me)
    else None
  }

  /** The first gate from `k` on that turns the worker away. */
  function Refusal(w: World, me: Worker, phase: Phase, k: nat): Option<Outcome>
    requires k <= |Gates(phase)|
    decreases |Gates(phase)| - k
  {
    if k == |Gates(phase)| then None
    else
      var o := GateOutcome(w, me.(pc := At(phase, k)), Gates(phase)[k]);
      if o.Some? then o else Refusal(w, me, phase, k + 1)
  }

  lemma RefusalIsVerdict(w: World, me: Worker, phase: Phase)
    ensures Refusal(w, me, phase, 0) == Verdict(w, me, phase)
  {
    var n := |Gates(phase)|;
    assert Refusal(w, me, phase, n) == None;
    if n >= 1 { assert Refusal(w, me, phase, n - 1) == GateOutcome(w, me.(pc := At(phase, n - 1)), Gates(phase)[n - 1]); }
    if n >= 5 {
      var last := Refusal(w, me, phase, 5);
      var fourth := Refusal(w, me, phase, 4);
      var third := Refusal(w, me, phase, 3);
      assert Refusal(w, me, phase, 2) == if w.paused then Some(SkippedQuiescence) else third;
    } else if n >= 2 {
      assert Refusal(w, me, phase, 1) ==
        var o := GateOutcome(w, me.(pc := At(phase, 1)), Gates(phase)[1]);
        if o.Some? then o else Refusal(w, me, phase, 2);
      if n == 4 { assert Refusal(w, me, phase, 2) == if w.active then Some(SkippedMaintenanceActive) else Refusal(w, me, phase, 3); }
    }
  }

  /** The steps are all those of one worker. */
  predicate Alone(events: seq<Event>, id: nat) { forall i | 0 <= i < |events| :: events[i] == WorkerStep(id) }

  /** Where a worker goes that is turned away: first it gives the lock back if it holds it, then the flag. */
  function Away(phase: Phase, outcome: Outcome): Pc {
    if phase.Entry? then Done(outcome) else if phase.Locked? then Unlocking(outcome) else Leaving(outcome)
  }

  /** `events` are steps of the worker alone that lead from `w` to `w'`. */
  ghost predicate LeadsAlone(w: World, id: nat, events: seq<Event>, w': World) { Alone(events, id) && Leads(w, events, w') }

  lemma Stay(w: World, id: nat)
    ensures LeadsAlone(w, id, [], w)
  {
  }

  lemma StepOnce(w: World, id: nat)
    requires CanStep(w, id)
    ensures LeadsAlone(w, id, [WorkerStep(id)], StepWorker(w, id))
  {
    OneStep(w, WorkerStep(id));
  }

  lemma GoOn(a: World, id: nat, events: seq<Event>, b: World, more: seq<Event>, c: World)
    requires LeadsAlone(a, id, events, b) && LeadsAlone(b, id, more, c)
    ensures LeadsAlone(a, id, events + more, c)
  {
    LeadsThen(a, events, b, more, c);
  }

  lemma GateIsPassed(w: World, id: nat, phase: Phase, k: nat)
    requires id in w.workers && k < |Gates(phase)|
    ensures var me, there := w.workers[id], Moved(w, id, At(phase, k));
            var o := GateOutcome(w, me.(pc := At(phase, k)), Gates(phase)[k]);
            CanStep(there, id) && StepWorker(there, id) == Moved(w, id, if o.Some? then Away(phase, o.value) else At(phase, k + 1))
  {
  }

  lemma {:induction false} ThroughOrAway(w: World, id: nat, phase: Phase, k: nat) returns (events: seq<Event>)
    requires id in w.workers && k <= |Gates(phase)|
    ensures var o := Refusal(w, w.workers[id], phase, k);
            LeadsAlone(Moved(w, id, At(phase, k)), id, events,
                       Moved(w, id, if o.Some? then Away(phase, o.value) else At(phase, |Gates(phase)|)))
    decreases |Gates(phase)| - k
  {
    var there := Moved(w, id, At(phase, k));
    if k == |Gates(phase)| {
      events := [];
      Stay(there, id);
    } else {
      GateIsPassed(w, id, phase, k);
      StepOnce(there, id);
      events := [WorkerStep(id)];
      if GateOutcome(w, w.workers[id].(pc := At(phase, k)), Gates(phase)[k]).None? {
        var o := Refusal(w, w.workers[id], phase, k);
        var more := ThroughOrAway(w, id, phase, k + 1);
        GoOn(there, id, events, Moved(w, id, At(phase, k + 1)), more,
             Moved(w, id, if o.Some? then Away(phase, o.value) else At(phase, |Gates(phase)|)));
        events := events + more;
      }
    }
  }

  /** Left alone, a worker that begins a phase is turned away with the verdict on the world, or comes to
      the end of the phase, and nothing else changes. */
  lemma PhaseIsChecked(w: World, id: nat, phase: Phase) returns (events: seq<Event>, w': World)
    requires id in w.workers && w.workers[id].pc == At(phase, 0)
    ensures LeadsAlone(w, id, events, w')
    ensures var o := Verdict(w, w.workers[id], phase);
            w' == Moved(w, id, if o.Some? then Away(phase, o.value) else At(phase, |Gates(phase)|))
  {
    RefusalIsVerdict(w, w.workers[id], phase);
    events := ThroughOrAway(w, id, phase, 0);
    var o := Verdict(w, w.workers[id], phase);
    w' := Moved(w, id, if o.Some? then Away(phase, o.value) else At(phase, |Gates(phase)|));
    assert Moved(w, id, At(phase, 0)) == w;
  }

  /** A worker that is turned away ends with its outcome; it gives back the flag and the lock it held. */
  lemma AwayEnds(w: World, id: nat, phase: Phase, outcome: Outcome) returns (events: seq<Event>, w': World)
    requires id in w.workers && w.workers[id].pc == Away(phase, outcome)
    ensures LeadsAlone(w, id, events, w')
    ensures w' == Moved(w, id, Done(outcome)).(workerActive := if phase.Entry? then w.workerActive else false,
                                               lockedBy := if phase.Locked? then None else w.lockedBy)
  {
    Stay(w, id);
    events, w' := [], w;
    assert Moved(w, id, w.workers[id].pc) == w;
    if phase.Locked? {
      StepOnce(w, id);
      events, w' := [WorkerStep(id)], StepWorker(w, id);
    }
    if !phase.Entry? {
      assert w' == Moved(w, id, Leaving(outcome)).(lockedBy := if phase.Locked? then None else w.lockedBy);
      StepOnce(w', id);
      GoOn(w, id, events, w', [WorkerStep(id)], StepWorker(w', id));
      events, w' := events + [WorkerStep(id)], StepWorker(w', id);
    }
  }

  // ------------------------------------------------------------ the phases, in order

  /** At the end of a phase: the flag is taken unless it is up, the generation is read, the lock is taken,
      the database is compacted, the lock is given back, caches are cleaned, attachments are swept. Each
      phase begins with all its checks. */
  lemma PhasesFollow(w: World, id: nat, phase: Phase)
    requires CanStep(w, id) && w.workers[id].pc == At(phase, |Gates(phase)|)
    ensures var w', me := StepWorker(w, id), w.workers[id];
      && (phase.Entry? && w.workerActive ==> w' == Moved(w, id, Done(SkippedAlreadyRunning)))
      && (phase.Entry? && !w.workerActive ==> w' == Moved(w, id, At(Claimed, 0)).(workerActive := true))
      && (phase.Claimed? ==> w' == w.(workers := w.workers[id := Worker(me.token, w.generation, At(Unlocked, 0))]))
      && (phase.Unlocked? ==> w.lockedBy == None && w' == Moved(w, id, At(Locked, 0)).(lockedBy := Some(id)))
      && (phase.Locked? ==> w' == Moved(w, id, At(Compacted, 0)).(compactions := w.compactions + [(me.token, w.db)]))
      && (phase.Compacted? ==> w' == Moved(w, id, At(Caches, 0)).(lockedBy := None))
      && (phase.Caches? ==> w' == Moved(w, id, At(Sweep, 0)))
      && (phase.Sweep? ==> w' == Moved(w, id, Leaving(Completed)))
  {
  }

  /** One phase of a worker left alone, to its end or away. */
  lemma PhaseAlone(w: World, id: nat, phase: Phase) returns (events: seq<Event>, w': World)
    requires id in w.workers && w.workers[id].pc == At(phase, 0) && (phase.Unlocked? ==> w.lockedBy == None)
    ensures LeadsAlone(w, id, events, w')
    ensures var o := Verdict(w, w.workers[id], phase);
            w' == if o.Some? then Moved(w, id, Away(phase, o.value)) else Act(Moved(w, id, At(phase, |Gates(phase)|)), id, phase)
  {
    events, w' := PhaseIsChecked(w, id, phase);
    if Verdict(w, w.workers[id], phase).None? {
      StepOnce(w', id);
      GoOn(w, id, events, w', [WorkerStep(id)], StepWorker(w', id));
      events, w' := events + [WorkerStep(id)], StepWorker(w', id);
    }
  }

  /** How a worker ends that is left alone with the world as it is. */
  function Expected(w: World, token: nat): Outcome {
    if token in w.cancelled then Cancelled
    else if w.active || w.paused || w.workerActive then SkippedAlreadyRunning
    else if !w.ready then SkippedProfileNotReady
    else if w.journalBlocks then SkippedRecoveryRequired
    else Completed
  }

  /** `w'` is `w` with the worker done and, if it completed, the database compacted once. */
  predicate EndsWith(w: World, id: nat, w': World, outcome: Outcome) {
    && id in w.workers && id in w'.workers && w'.workers[id].pc == Done(outcome)
    && w' == w.(workers := w.workers[id := w'.workers[id]],
                compactions := w.compactions + if outcome.Completed? then [(w.workers[id].token, w.db)] else [])
  }

  lemma EntryAlone(w: World, id: nat) returns (events: seq<Event>, w': World)
    requires id in w.workers && w.workers[id].pc == At(Entry, 0)
    ensures LeadsAlone(w, id, events, w')
    ensures if w.workers[id].token in w.cancelled || w.active || w.paused || w.workerActive
            then EndsWith(w, id, w', Expected(w, w.workers[id].token))
            else w' == w.(workers := w.workers[id := Worker(w.workers[id].token, w.generation, At(Unlocked, 0))], workerActive := true)
  {
    events, w' := PhaseAlone(w, id, Entry);
    if w'.workers[id].pc == At(Claimed, 0) {
      assert w' == Moved(w, id, At(Claimed, 0)).(workerActive := true);
      StepOnce(w', id);
      GoOn(w, id, events, w', [WorkerStep(id)], StepWorker(w', id));
      events, w' := events + [WorkerStep(id)], StepWorker(w', id);
    }
  }

  /** From the taken lock to the end, when nothing turns the worker away. */
  lemma CleansAlone(w: World, id: nat) returns (events: seq<Event>, w': World)
    requires id in w.workers && w.workers[id].pc == At(Locked, 0) && w.lockedBy == Some(id)
    requires LateVerdict(w, w.workers[id]) == None
    ensures LeadsAlone(w, id, events, w')
    ensures w' == Moved(w, id, Done(Completed)).(workerActive := false, lockedBy := None,
                                                 compactions := w.compactions + [(w.workers[id].token, w.db)])
  {
    var w1, more;
    events, w1 := CompactsAlone(w, id);
    more, w' := TidiesAlone(w1, id);
    GoOn(w, id, events, w1, more, w');
    events := events + more;
  }

  lemma CompactsAlone(w: World, id: nat) returns (events: seq<Event>, w': World)
    requires id in w.workers && w.workers[id].pc == At(Locked, 0) && LateVerdict(w, w.workers[id]) == None
    ensures LeadsAlone(w, id, events, w')
    ensures w' == Moved(w, id, At(Caches, 0)).(lockedBy := None, compactions := w.compactions + [(w.workers[id].token, w.db)])
  {
    var w1, more;
    events, w1 := PhaseAlone(w, id, Locked);
    assert w1 == Moved(w, id, At(Compacted, 0)).(compactions := w.compactions + [(w.workers[id].token, w.db)]);
    more, w' := PhaseAlone(w1, id, Compacted);
    GoOn(w, id, events, w1, more, w');
    events := events + more;
  }

  lemma TidiesAlone(w: World, id: nat) returns (events: seq<Event>, w': World)
    requires id in w.workers && w.workers[id].pc == At(Caches, 0) && LateVerdict(w, w.workers[id]) == None
    ensures LeadsAlone(w, id, events, w') && w' == Moved(w, id, Done(Completed)).(workerActive := false)
  {
    var more;
    events, w' := PhaseAlone(w, id, Caches);
    var w1 := w';
    assert w1 == Moved(w, id, At(Sweep, 0));
    more, w' := PhaseAlone(w1, id, Sweep);
    GoOn(w, id, events, w1, more, w');
    events := events + more;
    var w2 := w';
    assert w2 == Moved(w, id, Leaving(Completed));
    more, w' := AwayEnds(w2, id, Sweep, Completed);
    GoOn(w, id, events, w2, more, w');
    events := events + more;
  }

  /** A worker that has the flag and is left alone. */
  lemma ClaimedAlone(w: World, id: nat) returns (events: seq<Event>, w': World)
    requires id in w.workers && w.workers[id].pc == At(Unlocked, 0) && w.workerActive && w.lockedBy == None
    requires LateVerdict(w, w.workers[id]) == None
    ensures LeadsAlone(w, id, events, w')
    ensures EndsWith(w.(workerActive := false), id, w', Expected(w.(workerActive := false), w.workers[id].token))
  {
    var w1;
    events, w1 := PhaseAlone(w, id, Unlocked);
    var more;
    if w1.workers[id].pc == At(Locked, 0) {
      more, w' := CleansAlone(w1, id);
    } else {
      more, w' := AwayEnds(w1, id, Unlocked, Expected(w.(workerActive := false), w.workers[id].token));
    }
    GoOn(w, id, events, w1, more, w');
    events := events + more;
  }

  lemma IdleIsUnlocked(w: World)
    requires OneWorker(w) && !w.workerActive
    ensures w.lockedBy == None
  {
  }

  /** After any run, a new worker that is left alone ends with exactly this outcome; it compacts the
      database, once, exactly when it completes, and leaves everything else as it was. */
  lemma AloneEndsWith(start: World, before: seq<Event>, w: World, id: nat) returns (events: seq<Event>, w': World)
    requires start == Start(start.active, start.paused, start.ready, start.journalBlocks) && Leads(start, before, w)
    requires id in w.workers && w.workers[id].pc == At(Entry, 0)
    ensures LeadsAlone(w, id, events, w') && EndsWith(w, id, w', Expected(w, w.workers[id].token))
  {
    WorldRun(start, before, w);
    events, w' := EntryAlone(w, id);
    if w'.workers[id].pc.At? {
      var w1 := w';
      var more;
      IdleIsUnlocked(w);
      more, w' := ClaimedAlone(w1, id);
      GoOn(w, id, events, w1, more, w');
      events := events + more;
    }
  }

  // ------------------------------------------------------------ what the world remembers of a run

  datatype Memory = Memory(
    slot: Option<nat>, cancelled: set<nat>, db: nat, generation: nat, replaced: map<nat, Replacement>,
    active: bool, paused: bool, ready: bool, journalBlocks: bool)

  function Remembered(w: World): Memory {
    Memory(w.slot, w.cancelled, w.db, w.generation, w.replacements, w.active, w.paused, w.ready, w.journalBlocks)
  }

  function TokenIn(slot: Option<nat>): set<nat> { if slot.Some? then {slot.value} else {} }

  /** A registration takes the slot over. A cancellation, and every replacement as it begins, cancels the
      token in the slot and empties it. A replacement installs its database, then makes the profile ready
      and begins a new generation. Workers change none of this. */
  function MemoryAfter(m: Memory, events: seq<Event>): Memory
    decreases |events|
  {
    if events == [] then m else MemoryAfter(Recalled(m, events[0]), events[1..])
  }

  function Recalled(m: Memory, e: Event): Memory {
    var cancelled := m.cancelled + TokenIn(m.slot);
    if e.Register? then m.(slot := Some(e.token))
    else if e.CancelMaintenance? then m.(slot := None, cancelled := cancelled)
    else if e.ReplaceBegins? then m.(slot := None, cancelled := cancelled, replaced := m.replaced[e.r := Cancelling])
    else if e.ReplaceSwaps? then m.(db := e.r, replaced := m.replaced[e.r := Swapped])
    else if e.ReplaceBumps? then m.(generation := m.generation + 1, ready := true, replaced := m.replaced[e.r := Bumped])
    else if e.Elsewhere? then m.(active := e.active, paused := e.paused, ready := e.ready, journalBlocks := e.journalBlocks)
    else m
  }

  lemma ActForgets(w: World, id: nat, phase: Phase)
    requires id in w.workers
    ensures Remembered(Act(w, id, phase)) == Remembered(w)
  {
  }

  lemma WorkersForget(w: World, id: nat)
    requires CanStep(w, id)
    ensures Remembered(StepWorker(w, id)) == Remembered(w)
  {
    if w.workers[id].pc.At? { ActForgets(w, id, w.workers[id].pc.phase); }
  }

  lemma ReplacingIsRecalled(w: World, e: Event)
    requires Enabled(w, e) && (e.ReplaceBegins? || e.ReplaceSwaps? || e.ReplaceBumps?)
    ensures Remembered(StepOther(w, e)) == Recalled(Remembered(w), e)
  {
  }

  lemma CancellingIsRecalled(w: World, e: Event)
    requires Enabled(w, e) && (e.CancelMaintenance? || e.Elsewhere? || e.Register? || e.Spawn?)
    ensures Remembered(StepOther(w, e)) == Recalled(Remembered(w), e)
  {
  }

  lemma {:induction false} WorldRemembers(w: World, events: seq<Event>, w': World)
    requires Leads(w, events, w')
    ensures Remembered(w') == MemoryAfter(Remembered(w), events)
    decreases |events|
  {
    if events != [] {
      var e := events[0];
      if e.WorkerStep? {
        WorkersForget(w, e.worker);
      } else if e.ReplaceBegins? || e.ReplaceSwaps? || e.ReplaceBumps? {
        ReplacingIsRecalled(w, e);
      } else {
        CancellingIsRecalled(w, e);
      }
      WorldRemembers(Step(w, events[0]), events[1..], w');
    }
  }

  /** Nothing holds back a cancellation, a new token or a new replacement; a swap waits for the database
      lock, and the generation changes after the swap. */
  lemma CallsMayCome(w: World, token: nat, r: nat)
    ensures Enabled(w, CancelMaintenance) && (Enabled(w, Register(token)) <==> token !in w.registered)
    ensures Enabled(w, ReplaceBegins(r)) <==> r != 0 && r !in w.replacements
    ensures r in w.replacements ==>
              && (Enabled(w, ReplaceSwaps(r)) <==> w.replacements[r] == Cancelling && w.lockedBy == None)
              && (Enabled(w, ReplaceBumps(r)) <==> w.replacements[r] == Swapped)
  {
  }

  lemma StartRemembersNothing(active: bool, paused: bool, ready: bool, journalBlocks: bool)
    ensures var w := Start(active, paused, ready, journalBlocks);
            && Remembered(w) == Memory(None, {}, 0, 0, map[], active, paused, ready, journalBlocks)
            && w.workers == map[] && !w.workerActive && w.lockedBy == None && w.compactions == []
  {
  }

  /** A new worker waits at its first check, with its token, and no other worker moves. */
  lemma SpawnedWaits(w: World, id: nat, token: nat)
    requires Enabled(w, Spawn(id, token))
    ensures var w' := Step(w, Spawn(id, token));
            && Remembered(w') == Remembered(w) && w'.workers.Keys == w.workers.Keys + {id}
            && w'.workers[id].token == token && w'.workers[id].pc == At(Entry, 0)
            && forall other :: other in w.workers ==> w'.workers[other] == w.workers[other]
  {
  }
}

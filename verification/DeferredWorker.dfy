/** The deferred startup worker (`execute_deferred_startup_maintenance` in src-tauri/src/maintenance.rs)
    against profile replacement and cancellation (src-tauri/src/state.rs).

    Every read of shared state is a step of its own, so any number of workers, replacements and other
    callers interleave between any two of them. Whether maintenance is active, work is paused, the
    profile is ready or a journal asks for recovery may change at any moment. */
module DeferredWorker {
  import opened Common

  datatype Outcome =
    | Completed | SkippedProfileNotReady | SkippedQuiescence | SkippedMaintenanceActive
    | SkippedRecoveryRequired | SkippedAlreadyRunning | SkippedGenerationChanged | Cancelled

  datatype Gate = CancelGate | ActiveGate | PausedGate | ReadyGate | JournalGate | GenerationGate

  /** A phase is a run of gates and then one action. */
  datatype Phase = Entry | Claimed | Unlocked | Locked | Compacted | Caches | Sweep

  function Gates(p: Phase): seq<Gate> {
    match p
    case Entry => [CancelGate, ActiveGate, PausedGate]
    case Claimed => []
    case Unlocked => [ReadyGate, ActiveGate, PausedGate, JournalGate, CancelGate, GenerationGate]
    case Locked => [CancelGate, GenerationGate]
    case Compacted => []
    case Caches => [CancelGate, GenerationGate, ActiveGate, PausedGate]
    case Sweep => [CancelGate, GenerationGate, ActiveGate, PausedGate]
  }

  datatype Pc =
    | At(phase: Phase, gate: nat)
    | Unlocking(outcome: Outcome)   // leaving with the database lock still held
    | Leaving(outcome: Outcome)     // leaving with the worker flag still set
    | Done(outcome: Outcome)

  datatype Worker = Worker(token: nat, initialGeneration: nat, pc: Pc)

  /** What is left of a replacement: cancelled, then swapped in its database, then bumped. */
  datatype Replacement = Cancelling | Swapped | Bumped

  /** A database is named by the replacement that installed it; 0 is the one from startup.
      `covered` and `compactions` are history. */
  datatype World = World(
    registered: set<nat>, slot: Option<nat>, cancelled: set<nat>,
    db: nat, lockedBy: Option<nat>, generation: nat,
    active: bool, paused: bool, ready: bool, journalBlocks: bool,
    workerActive: bool,
    workers: map<nat, Worker>,
    replacements: map<nat, Replacement>,
    covered: map<nat, set<nat>>,           // tokens in the slot or cancelled when the replacement began
    compactions: seq<(nat, nat)>)          // (token, database)

  datatype Event =
    | Register(token: nat)
    | Spawn(worker: nat, token: nat)
    | WorkerStep(worker: nat)
    | CancelMaintenance
    | ReplaceBegins(r: nat)
    | ReplaceSwaps(r: nat)
    | ReplaceBumps(r: nat)
    | Elsewhere(active: bool, paused: bool, ready: bool, journalBlocks: bool)

  function CancelSlot(w: World): World {
    if w.slot.Some? then w.(slot := None, cancelled := w.cancelled + {w.slot.value}) else w
  }

  /** The outcome with which a gate turns the worker away, if it does. */
  function GateOutcome(w: World, me: Worker, g: Gate): Option<Outcome> {
    match g
    case CancelGate => if me.token in w.cancelled then Some(Cancelled) else None
    case ActiveGate => if !w.active then None
                       else if me.pc.At? && me.pc.phase.Entry? then Some(SkippedAlreadyRunning) else Some(SkippedMaintenanceActive)
    case PausedGate => if !w.paused then None
                       else if me.pc.At? && me.pc.phase.Entry? then Some(SkippedAlreadyRunning) else Some(SkippedQuiescence)
    case ReadyGate => if w.ready then None else Some(SkippedProfileNotReady)
    case JournalGate => if w.journalBlocks then Some(SkippedRecoveryRequired) else None
    case GenerationGate => if w.generation != me.initialGeneration then Some(SkippedGenerationChanged) else None
  }

  function TurnedAway(phase: Phase, outcome: Outcome): Pc {
    if phase.Entry? then Done(outcome) else if phase.Locked? then Unlocking(outcome) else Leaving(outcome)
  }

  predicate CanStep(w: World, id: nat) {
    id in w.workers && !w.workers[id].pc.Done?
    && (w.workers[id].pc == At(Unlocked, 6) ==> w.lockedBy.None?)
  }

  function Moved(w: World, id: nat, pc: Pc): World
    requires id in w.workers
  {
    w.(workers := w.workers[id := w.workers[id].(pc := pc)])
  }

  /** The next gate of the phase: on to the one after, or turned away. */
  function PassGate(w: World, id: nat, phase: Phase, k: nat): World
    requires id in w.workers && k < |Gates(phase)|
  {
    var turnedAway := GateOutcome(w, w.workers[id], Gates(phase)[k]);
    Moved(w, id, if turnedAway.Some? then TurnedAway(phase, turnedAway.value) else At(phase, k + 1))
  }

  /** What the worker does once the gates of a phase are behind it. */
  function Act(w: World, id: nat, phase: Phase): World
    requires id in w.workers
  {
    match phase
    case Entry =>
      if w.workerActive then Moved(w, id, Done(SkippedAlreadyRunning))
      else Moved(w, id, At(Claimed, 0)).(workerActive := true)
    case Claimed =>
      w.(workers := w.workers[id := w.workers[id].(pc := At(Unlocked, 0), initialGeneration := w.generation)])
    case Unlocked => Moved(w, id, At(Locked, 0)).(lockedBy := Some(id))
    case Locked => Moved(w, id, At(Compacted, 0)).(compactions := w.compactions + [(w.workers[id].token, w.db)])
    case Compacted => Moved(w, id, At(Caches, 0)).(lockedBy := None)
    case Caches => Moved(w, id, At(Sweep, 0))
    case Sweep => Moved(w, id, Leaving(Completed))
  }

  function StepWorker(w: World, id: nat): World
    requires CanStep(w, id)
  {
    match w.workers[id].pc
    case Unlocking(outcome) => Moved(w, id, Leaving(outcome)).(lockedBy := None)
    case Leaving(outcome) => Moved(w, id, Done(outcome)).(workerActive := false)
    case Done(_) => w
    case At(phase, k) => if k < |Gates(phase)| then PassGate(w, id, phase, k) else Act(w, id, phase)
  }

  predicate Enabled(w: World, e: Event) {
    match e
    case Register(t) => t !in w.registered
    case Spawn(id, t) => id !in w.workers && t in w.registered
    case WorkerStep(id) => CanStep(w, id)
    case CancelMaintenance => true
    case ReplaceBegins(r) => r != 0 && r !in w.replacements
    case ReplaceSwaps(r) => r in w.replacements && w.replacements[r].Cancelling? && w.lockedBy.None?
    case ReplaceBumps(r) => r in w.replacements && w.replacements[r].Swapped?
    case Elsewhere(_, _, _, _) => true
  }

  function StepOther(w: World, e: Event): World
    requires Enabled(w, e) && !e.WorkerStep?
  {
    match e
    case Register(t) => w.(registered := w.registered + {t}, slot := Some(t))
    case Spawn(id, t) => w.(workers := w.workers[id := Worker(t, 0, At(Entry, 0))])
    case CancelMaintenance => CancelSlot(w)
    case ReplaceBegins(r) =>
      CancelSlot(w).(replacements := w.replacements[r := Cancelling],
                     covered := w.covered[r := w.cancelled + if w.slot.Some? then {w.slot.value} else {}])
    case ReplaceSwaps(r) => w.(db := r, replacements := w.replacements[r := Swapped])
    case ReplaceBumps(r) => w.(generation := w.generation + 1, ready := true, replacements := w.replacements[r := Bumped])
    case Elsewhere(active, paused, ready, journalBlocks) =>
      w.(active := active, paused := paused, ready := ready, journalBlocks := journalBlocks)
  }

  function Step(w: World, e: Event): World
    requires Enabled(w, e)
  {
    if e.WorkerStep? then StepWorker(w, e.worker) else StepOther(w, e)
  }

  function Start(active: bool, paused: bool, ready: bool, journalBlocks: bool): World {
    World({}, None, {}, 0, None, 0, active, paused, ready, journalBlocks, false, map[], map[], map[], [])
  }

  ghost predicate Leads(w: World, events: seq<Event>, w': World)
    decreases |events|
  {
    if events == [] then w' == w
    else Enabled(w, events[0]) && Leads(Step(w, events[0]), events[1..], w')
  }

  /** Between setting the worker flag and clearing it. */
  predicate HoldsFlag(me: Worker) {
    match me.pc
    case At(phase, _) => !phase.Entry?
    case Unlocking(_) => true
    case Leaving(_) => true
    case Done(_) => false
  }

  predicate HoldsLock(me: Worker) {
    me.pc.Unlocking? || (me.pc.At? && (me.pc.phase.Locked? || me.pc.phase.Compacted?))
  }

  /** Past the cancel check it makes under the lock, and not yet out of the lock. */
  predicate CheckedUnderLock(me: Worker) {
    me.pc.At? && ((me.pc.phase.Locked? && me.pc.gate >= 1) || me.pc.phase.Compacted?)
  }

  ghost predicate OneWorker(w: World) {
    && (w.workerActive <==> exists id :: id in w.workers && HoldsFlag(w.workers[id]))
    && (forall i, j :: i in w.workers && j in w.workers && HoldsFlag(w.workers[i]) && HoldsFlag(w.workers[j]) ==> i == j)
    && (forall i :: i in w.workers && HoldsLock(w.workers[i]) ==> w.lockedBy == Some(i))
    && (w.lockedBy.Some? ==> w.lockedBy.value in w.workers && HoldsLock(w.workers[w.lockedBy.value]))
    && (forall i :: i in w.workers && w.workers[i].pc.At? ==> w.workers[i].pc.gate <= |Gates(w.workers[i].pc.phase)|)
  }

  /** All that a step of worker `id` can do to the flag, the lock and the compaction log. */
  ghost predicate WorkerEffect(w: World, id: nat, w': World)
    requires id in w.workers
  {
    var me, me' := w.workers[id], if id in w'.workers then w'.workers[id] else w.workers[id];
    && w'.workers == w.workers[id := me'] && w'.db == w.db && w'.cancelled == w.cancelled
    && w'.covered == w.covered && w'.replacements == w.replacements
    && me'.token == me.token
    && (me'.pc.At? ==> me'.pc.gate <= |Gates(me'.pc.phase)|)
    && (if HoldsFlag(me) == HoldsFlag(me') then w'.workerActive == w.workerActive
        else w'.workerActive == HoldsFlag(me') && (HoldsFlag(me') ==> !w.workerActive))
    && (if HoldsLock(me) == HoldsLock(me') then w'.lockedBy == w.lockedBy
        else if HoldsLock(me') then w.lockedBy == None && w'.lockedBy == Some(id)
        else w'.lockedBy == None)
    && (CheckedUnderLock(me') ==> HoldsLock(me) && (CheckedUnderLock(me) || me.token !in w.cancelled))
    && (w'.compactions == w.compactions
        || (CheckedUnderLock(me) && w'.compactions == w.compactions + [(me.token, w.db)]))
  }

  lemma GateHasEffect(w: World, id: nat, phase: Phase, k: nat)
    requires id in w.workers && w.workers[id].pc == At(phase, k) && k < |Gates(phase)|
    ensures WorkerEffect(w, id, PassGate(w, id, phase, k))
  {
  }

  lemma ActHasEffect(w: World, id: nat, phase: Phase)
    requires id in w.workers && w.workers[id].pc == At(phase, |Gates(phase)|)
    requires phase.Unlocked? ==> w.lockedBy.None?
    ensures WorkerEffect(w, id, Act(w, id, phase))
  {
  }

  lemma UnlockingHasEffect(w: World, id: nat, outcome: Outcome)
    requires id in w.workers && w.workers[id].pc == Unlocking(outcome)
    ensures WorkerEffect(w, id, StepWorker(w, id))
  {
  }

  lemma LeavingHasEffect(w: World, id: nat, outcome: Outcome)
    requires id in w.workers && w.workers[id].pc == Leaving(outcome)
    ensures WorkerEffect(w, id, StepWorker(w, id))
  {
  }

  lemma WorkerStepHasEffect(w: World, id: nat)
    requires CanStep(w, id) && (w.workers[id].pc.At? ==> w.workers[id].pc.gate <= |Gates(w.workers[id].pc.phase)|)
    ensures WorkerEffect(w, id, StepWorker(w, id))
  {
    match w.workers[id].pc
    case At(phase, k) =>
      if k < |Gates(phase)| {
        GateHasEffect(w, id, phase, k);
        assert StepWorker(w, id) == PassGate(w, id, phase, k);
      } else {
        ActHasEffect(w, id, phase);
        assert StepWorker(w, id) == Act(w, id, phase);
      }
    case Unlocking(outcome) => UnlockingHasEffect(w, id, outcome);
    case Leaving(outcome) => LeavingHasEffect(w, id, outcome);
  }

  lemma OneWorkerAfterWorker(w: World, id: nat, w': World)
    requires OneWorker(w) && id in w.workers && WorkerEffect(w, id, w')
    ensures OneWorker(w')
  {
    assert forall i :: i in w.workers && i != id ==> w'.workers[i] == w.workers[i];
    var me, me' := w.workers[id], w'.workers[id];
    if w.workerActive {
      var i :| i in w.workers && HoldsFlag(w.workers[i]);
      if i != id { assert i in w'.workers && HoldsFlag(w'.workers[i]); }
    }
  }

  ghost predicate WorkersLeftAlone(w: World, w': World) {
    && w'.workerActive == w.workerActive && w'.lockedBy == w.lockedBy && w'.compactions == w.compactions
    && w.cancelled <= w'.cancelled
    && (forall i :: i in w.workers ==> i in w'.workers && w'.workers[i] == w.workers[i])
    && (forall i :: i in w'.workers && i !in w.workers ==> w'.workers[i].pc == At(Entry, 0))
  }

  lemma ReplacingLeavesWorkersAlone(w: World, e: Event)
    requires Enabled(w, e) && (e.ReplaceBegins? || e.ReplaceSwaps? || e.ReplaceBumps?)
    ensures WorkersLeftAlone(w, StepOther(w, e))
  {
  }

  lemma CancellingLeavesWorkersAlone(w: World, e: Event)
    requires Enabled(w, e) && (e.CancelMaintenance? || e.Elsewhere? || e.Register?)
    ensures WorkersLeftAlone(w, StepOther(w, e))
  {
  }

  lemma SpawningLeavesWorkersAlone(w: World, e: Event)
    requires Enabled(w, e) && e.Spawn?
    ensures WorkersLeftAlone(w, StepOther(w, e))
  {
  }

  lemma OthersLeaveWorkersAlone(w: World, e: Event)
    requires Enabled(w, e) && !e.WorkerStep?
    ensures WorkersLeftAlone(w, StepOther(w, e))
  {
    if e.ReplaceBegins? || e.ReplaceSwaps? || e.ReplaceBumps? {
      ReplacingLeavesWorkersAlone(w, e);
    } else if e.Spawn? {
      SpawningLeavesWorkersAlone(w, e);
    } else {
      CancellingLeavesWorkersAlone(w, e);
    }
  }

  lemma OneWorkerAfterOthers(w: World, w': World)
    requires OneWorker(w) && WorkersLeftAlone(w, w')
    ensures OneWorker(w')
  {
    if w.workerActive {
      var i :| i in w.workers && HoldsFlag(w.workers[i]);
      assert i in w'.workers && HoldsFlag(w'.workers[i]);
    }
  }

  /** Every replacement that has begun cancelled its covered tokens; the present database and every
      compacted one was installed by a covered replacement. */
  ghost predicate NoForbiddenCompaction(w: World) {
    && (forall r :: r in w.replacements <==> r in w.covered)
    && (forall r :: r in w.covered ==> w.covered[r] <= w.cancelled)
    && (w.db != 0 ==> w.db in w.covered)
    && (forall id :: id in w.workers && CheckedUnderLock(w.workers[id]) && w.db != 0 ==>
          w.workers[id].token !in w.covered[w.db])
    && (forall k | 0 <= k < |w.compactions| :: Allowed(w, w.compactions[k]))
  }

  predicate Allowed(w: World, c: (nat, nat)) { c.1 != 0 ==> c.1 in w.covered && c.0 !in w.covered[c.1] }

  lemma NoForbiddenAfterWorker(w: World, id: nat, w': World)
    requires NoForbiddenCompaction(w) && id in w.workers && WorkerEffect(w, id, w')
    ensures NoForbiddenCompaction(w')
  {
    assert forall i :: i in w.workers && i != id ==> w'.workers[i] == w.workers[i];
    forall k | 0 <= k < |w'.compactions| ensures Allowed(w', w'.compactions[k]) {
      if k < |w.compactions| { assert Allowed(w, w.compactions[k]); }
    }
  }

  /** A swap happens under the database lock, so no worker is then past its check. */
  lemma NoForbiddenAfterSwap(w: World, r: nat)
    requires OneWorker(w) && NoForbiddenCompaction(w) && Enabled(w, ReplaceSwaps(r))
    ensures NoForbiddenCompaction(StepOther(w, ReplaceSwaps(r)))
  {
    var w' := StepOther(w, ReplaceSwaps(r));
    forall k | 0 <= k < |w'.compactions| ensures Allowed(w', w'.compactions[k]) {
      assert Allowed(w, w.compactions[k]);
    }
  }

  /** Any step that leaves the database and the recorded covers alone. */
  lemma NoForbiddenAfterOthers(w: World, w': World)
    requires NoForbiddenCompaction(w) && WorkersLeftAlone(w, w')
    requires w'.db == w.db && w'.covered == w.covered && w'.replacements.Keys == w.replacements.Keys
    ensures NoForbiddenCompaction(w')
  {
    forall k | 0 <= k < |w'.compactions| ensures Allowed(w', w'.compactions[k]) {
      assert Allowed(w, w.compactions[k]);
    }
  }

  /** A replacement that begins cancels what it covers. */
  lemma NoForbiddenAfterBegin(w: World, w': World, r: nat)
    requires NoForbiddenCompaction(w) && WorkersLeftAlone(w, w') && r !in w.replacements
    requires w'.db == w.db && r in w'.covered && w'.covered == w.covered[r := w'.covered[r]]
    requires w'.covered[r] <= w'.cancelled && w'.replacements.Keys == w.replacements.Keys + {r}
    ensures NoForbiddenCompaction(w')
  {
    forall k | 0 <= k < |w'.compactions| ensures Allowed(w', w'.compactions[k]) {
      assert Allowed(w, w.compactions[k]);
    }
  }

  lemma OthersLeaveCoversAlone(w: World, e: Event)
    requires Enabled(w, e) && !e.WorkerStep? && !e.ReplaceBegins? && !e.ReplaceSwaps?
    ensures var w' := StepOther(w, e);
            w'.db == w.db && w'.covered == w.covered && w'.replacements.Keys == w.replacements.Keys
  {
  }

  lemma WorldStep(w: World, e: Event)
    requires OneWorker(w) && NoForbiddenCompaction(w) && Enabled(w, e)
    ensures OneWorker(Step(w, e)) && NoForbiddenCompaction(Step(w, e))
  {
    if e.WorkerStep? {
      WorkerStepHasEffect(w, e.worker);
      OneWorkerAfterWorker(w, e.worker, Step(w, e));
      NoForbiddenAfterWorker(w, e.worker, Step(w, e));
    } else {
      OthersLeaveWorkersAlone(w, e);
      OneWorkerAfterOthers(w, StepOther(w, e));
      if e.ReplaceBegins? {
        NoForbiddenAfterBegin(w, StepOther(w, e), e.r);
      } else if e.ReplaceSwaps? {
        NoForbiddenAfterSwap(w, e.r);
      } else {
        OthersLeaveCoversAlone(w, e);
        NoForbiddenAfterOthers(w, StepOther(w, e));
      }
    }
  }

  lemma {:induction false} WorldRun(w: World, events: seq<Event>, w': World)
    requires OneWorker(w) && NoForbiddenCompaction(w) && Leads(w, events, w')
    ensures OneWorker(w') && NoForbiddenCompaction(w')
    decreases |events|
  {
    if events != [] {
      WorldStep(w, events[0]);
      WorldRun(Step(w, events[0]), events[1..], w');
    }
  }

  /** No worker ever compacts a database installed by a replacement that began when the worker's token
      was in the cancel slot, or was cancelled already. */
  lemma NeverCompactsAReplacedDatabase(start: World, events: seq<Event>, w: World, k: nat)
    requires start == Start(start.active, start.paused, start.ready, start.journalBlocks) && Leads(start, events, w)
    requires k < |w.compactions|
    ensures var (token, db) := w.compactions[k];
            db == 0 || (db in w.covered && token !in w.covered[db])
  {
    WorldRun(start, events, w);
    assert Allowed(w, w.compactions[k]);
  }

  /** At most one worker is between begin and end, and the flag is up exactly while one is. */
  lemma OneWorkerAtATime(start: World, events: seq<Event>, w: World, i: nat, j: nat)
    requires start == Start(start.active, start.paused, start.ready, start.journalBlocks) && Leads(start, events, w)
    requires i in w.workers && j in w.workers && HoldsFlag(w.workers[i])
    ensures w.workerActive && (HoldsFlag(w.workers[j]) ==> i == j)
  {
    WorldRun(start, events, w);
  }

  /** Every exit path lowers the flag and releases the lock. */
  lemma FlagIsReleased(start: World, events: seq<Event>, w: World)
    requires start == Start(start.active, start.paused, start.ready, start.journalBlocks) && Leads(start, events, w)
    requires forall id :: id in w.workers ==> w.workers[id].pc.Done?
    ensures !w.workerActive && w.lockedBy == None
  {
    WorldRun(start, events, w);
  }

  predicate SoleToken(w: World, t: nat) {
    w.registered <= {t} && (t in w.registered ==> w.slot == Some(t) || t in w.cancelled)
  }

  lemma {:induction false} SoleTokenRun(w: World, events: seq<Event>, w': World, t: nat)
    requires SoleToken(w, t) && Leads(w, events, w') && w'.registered <= {t}
    ensures SoleToken(w', t)
    decreases |events|
  {
    if events != [] {
      RegisteredOnlyGrows(Step(w, events[0]), events[1..], w');
      SoleTokenStep(w, events[0], t);
      SoleTokenRun(Step(w, events[0]), events[1..], w', t);
    }
  }

  lemma SoleTokenStep(w: World, e: Event, t: nat)
    requires SoleToken(w, t) && Enabled(w, e) && Step(w, e).registered <= {t}
    ensures SoleToken(Step(w, e), t)
  {
    if e.WorkerStep? { WorkerKeepsTokens(w, e.worker); }
  }

  predicate TokensKept(w: World, w': World) {
    w'.registered == w.registered && w'.slot == w.slot && w'.cancelled == w.cancelled
  }

  lemma ActKeepsTokens(w: World, id: nat, phase: Phase)
    requires id in w.workers
    ensures TokensKept(w, Act(w, id, phase))
  {
  }

  lemma LeavingKeepsTokens(w: World, id: nat, outcome: Outcome)
    requires id in w.workers && (w.workers[id].pc == Unlocking(outcome) || w.workers[id].pc == Leaving(outcome))
    ensures TokensKept(w, StepWorker(w, id))
  {
  }

  lemma WorkerKeepsTokens(w: World, id: nat)
    requires CanStep(w, id)
    ensures TokensKept(w, StepWorker(w, id))
  {
    match w.workers[id].pc
    case At(phase, k) =>
      if k < |Gates(phase)| {
        assert StepWorker(w, id) == PassGate(w, id, phase, k);
      } else {
        ActKeepsTokens(w, id, phase);
        assert StepWorker(w, id) == Act(w, id, phase);
      }
    case Unlocking(outcome) => LeavingKeepsTokens(w, id, outcome);
    case Leaving(outcome) => LeavingKeepsTokens(w, id, outcome);
  }

  lemma {:induction false} RegisteredOnlyGrows(w: World, events: seq<Event>, w': World)
    requires Leads(w, events, w')
    ensures w.registered <= w'.registered
    decreases |events|
  {
    if events != [] {
      if events[0].WorkerStep? { WorkerKeepsTokens(w, events[0].worker); }
      RegisteredOnlyGrows(Step(w, events[0]), events[1..], w');
    }
  }

  /** The startup code registers one token: then every replacement that begins after that covers it,
      so no worker compacts the database such a replacement installs. */
  lemma SoleTokenIsCovered(start: World, events: seq<Event>, w: World, t: nat, r: nat)
    requires start == Start(start.active, start.paused, start.ready, start.journalBlocks) && Leads(start, events, w)
    requires w.registered == {t} && Enabled(w, ReplaceBegins(r))
    ensures t in Step(w, ReplaceBegins(r)).covered[r]
  {
    SoleTokenRun(start, events, w, t);
  }

  // ------------------------------------------------------------ what is not covered can happen

  lemma {:induction false} LeadsThen(a: World, events: seq<Event>, b: World, more: seq<Event>, c: World)
    requires Leads(a, events, b) && Leads(b, more, c)
    ensures Leads(a, events + more, c)
    decreases |events|
  {
    if events == [] {
      assert events + more == more;
    } else {
      assert (events + more)[1..] == events[1..] + more;
      LeadsThen(Step(a, events[0]), events[1..], b, more, c);
    }
  }

  lemma OneStep(w: World, e: Event)
    requires Enabled(w, e)
    ensures Leads(w, [e], Step(w, e))
  {
    assert [e][1..] == [];
  }

  function Rank(p: Phase): nat {
    match p
    case Entry => 0
    case Claimed => 1
    case Unlocked => 2
    case Locked => 3
    case Compacted => 4
    case Caches => 5
    case Sweep => 6
  }

  /** Steps left to a worker, at most. */
  function StepsLeft(pc: Pc): nat {
    match pc
    case At(phase, gate) => 10 * (6 - Rank(phase)) + (if gate <= 7 then 7 - gate else 0) + 3
    case Unlocking(_) => 2
    case Leaving(_) => 1
    case Done(_) => 0
  }

  lemma GateAdvances(w: World, id: nat, phase: Phase, k: nat)
    requires id in w.workers && k < |Gates(phase)|
    ensures id in PassGate(w, id, phase, k).workers
    ensures StepsLeft(PassGate(w, id, phase, k).workers[id].pc) < StepsLeft(At(phase, k))
  {
  }

  lemma EarlyActAdvances(w: World, id: nat, phase: Phase)
    requires id in w.workers && Rank(phase) < 3
    ensures id in Act(w, id, phase).workers
    ensures StepsLeft(Act(w, id, phase).workers[id].pc) < StepsLeft(At(phase, |Gates(phase)|))
  {
  }

  lemma LateActAdvances(w: World, id: nat, phase: Phase)
    requires id in w.workers && Rank(phase) >= 3
    ensures id in Act(w, id, phase).workers
    ensures StepsLeft(Act(w, id, phase).workers[id].pc) < StepsLeft(At(phase, |Gates(phase)|))
  {
  }

  lemma UnlockingAdvances(w: World, id: nat, outcome: Outcome)
    requires CanStep(w, id) && w.workers[id].pc == Unlocking(outcome)
    ensures id in StepWorker(w, id).workers && StepWorker(w, id).workers[id].pc == Leaving(outcome)
  {
  }

  lemma LeavingAdvances(w: World, id: nat, outcome: Outcome)
    requires CanStep(w, id) && w.workers[id].pc == Leaving(outcome)
    ensures id in StepWorker(w, id).workers && StepWorker(w, id).workers[id].pc == Done(outcome)
  {
  }

  lemma WorkerAdvances(w: World, id: nat)
    requires CanStep(w, id) && (w.workers[id].pc.At? ==> w.workers[id].pc.gate <= |Gates(w.workers[id].pc.phase)|)
    ensures id in StepWorker(w, id).workers && StepsLeft(StepWorker(w, id).workers[id].pc) < StepsLeft(w.workers[id].pc)
  {
    if w.workers[id].pc.At? {
      var phase, k := w.workers[id].pc.phase, w.workers[id].pc.gate;
      if k < |Gates(phase)| {
        GateAdvances(w, id, phase, k);
        assert StepWorker(w, id) == PassGate(w, id, phase, k);
      } else {
        if Rank(phase) < 3 { EarlyActAdvances(w, id, phase); } else { LateActAdvances(w, id, phase); }
        assert StepWorker(w, id) == Act(w, id, phase);
      }
    } else if w.workers[id].pc.Unlocking? {
      UnlockingAdvances(w, id, w.workers[id].pc.outcome);
    } else {
      LeavingAdvances(w, id, w.workers[id].pc.outcome);
    }
  }

  /** Nothing but the flag, the lock, the log and workers that hold the flag differs. */
  ghost predicate RestKept(w: World, w': World) {
    && w'.db == w.db && w'.cancelled == w.cancelled && w'.covered == w.covered && w'.replacements == w.replacements
    && forall i :: i in w.workers && !HoldsFlag(w.workers[i]) ==> i in w'.workers && w'.workers[i] == w.workers[i]
  }

  /** The worker that holds the flag can step, and keeps the rest. */
  lemma HolderSteps(w: World, id: nat)
    requires OneWorker(w) && id in w.workers && HoldsFlag(w.workers[id])
    ensures CanStep(w, id) && OneWorker(StepWorker(w, id)) && RestKept(w, StepWorker(w, id))
    ensures id in StepWorker(w, id).workers && StepsLeft(StepWorker(w, id).workers[id].pc) < StepsLeft(w.workers[id].pc)
    ensures !HoldsFlag(StepWorker(w, id).workers[id]) ==> !StepWorker(w, id).workerActive && StepWorker(w, id).lockedBy == None
  {
    assert CanStep(w, id);
    WorkerStepHasEffect(w, id);
    WorkerAdvances(w, id);
    OneWorkerAfterWorker(w, id, StepWorker(w, id));
  }

  /** The worker that holds the flag can be run to its end. */
  lemma {:induction false} Finish(w: World, id: nat) returns (events: seq<Event>, w': World)
    requires OneWorker(w) && id in w.workers && HoldsFlag(w.workers[id])
    ensures Leads(w, events, w') && RestKept(w, w') && !w'.workerActive && w'.lockedBy == None
    decreases StepsLeft(w.workers[id].pc)
  {
    HolderSteps(w, id);
    var next := StepWorker(w, id);
    assert next == Step(w, WorkerStep(id));
    OneStep(w, WorkerStep(id));
    if HoldsFlag(next.workers[id]) {
      var more;
      more, w' := Finish(next, id);
      events := [WorkerStep(id)] + more;
      LeadsThen(w, [WorkerStep(id)], next, more, w');
      RestKeptTwice(w, next, w');
    } else {
      events, w' := [WorkerStep(id)], next;
    }
  }

  lemma RestKeptTwice(a: World, b: World, c: World)
    requires RestKept(a, b) && RestKept(b, c)
    ensures RestKept(a, c)
  {
  }

  lemma Quieten(w: World) returns (events: seq<Event>, w': World)
    requires OneWorker(w)
    ensures Leads(w, events, w') && RestKept(w, w') && !w'.workerActive && w'.lockedBy == None
  {
    if w.workerActive {
      var id :| id in w.workers && HoldsFlag(w.workers[id]);
      events, w' := Finish(w, id);
    } else {
      events, w' := [], w;
    }
  }

  predicate AllOpen(w: World, me: Worker, phase: Phase) {
    && me.token !in w.cancelled && !w.active && !w.paused && w.ready && !w.journalBlocks
    && (phase.Entry? || w.generation == me.initialGeneration)
  }

  /** A worker that no gate turns away comes to the action of its phase. */
  lemma {:induction false} ThroughGates(w: World, id: nat, phase: Phase, k: nat) returns (events: seq<Event>)
    requires id in w.workers && w.workers[id].pc == At(phase, k) && k <= |Gates(phase)|
    requires AllOpen(w, w.workers[id], phase)
    ensures Leads(w, events, Moved(w, id, At(phase, |Gates(phase)|)))
    decreases |Gates(phase)| - k
  {
    if k == |Gates(phase)| {
      events := [];
      assert Moved(w, id, At(phase, k)) == w;
    } else {
      var next := Step(w, WorkerStep(id));
      assert Gates(phase)[k].GenerationGate? ==> !phase.Entry?;
      assert next == Moved(w, id, At(phase, k + 1));
      OneStep(w, WorkerStep(id));
      var more := ThroughGates(next, id, phase, k + 1);
      assert Moved(next, id, At(phase, |Gates(phase)|)) == Moved(w, id, At(phase, |Gates(phase)|));
      LeadsThen(w, [WorkerStep(id)], next, more, Moved(w, id, At(phase, |Gates(phase)|)));
      events := [WorkerStep(id)] + more;
    }
  }

  /** One phase of such a worker, gates and action. */
  lemma ThroughPhase(w: World, id: nat, phase: Phase) returns (events: seq<Event>, w': World)
    requires id in w.workers && w.workers[id].pc == At(phase, 0) && AllOpen(w, w.workers[id], phase) && w.lockedBy.None? == !phase.Locked?
    ensures Leads(w, events, w') && w' == Act(Moved(w, id, At(phase, |Gates(phase)|)), id, phase)
  {
    events := ThroughGates(w, id, phase, 0);
    var there := Moved(w, id, At(phase, |Gates(phase)|));
    OneStep(there, WorkerStep(id));
    w' := Act(there, id, phase);
    assert Step(there, WorkerStep(id)) == w';
    LeadsThen(w, events, there, [WorkerStep(id)], w');
    events := events + [WorkerStep(id)];
  }

  /** A waiting worker goes straight through and compacts the database it finds. */
  lemma StraightThrough(w: World, id: nat) returns (events: seq<Event>, w': World)
    requires id in w.workers && w.workers[id].pc == At(Entry, 0) && !w.workerActive && w.lockedBy == None
    requires AllOpen(w, w.workers[id], Entry)
    ensures Leads(w, events, w') && w'.compactions == w.compactions + [(w.workers[id].token, w.db)]
  {
    var e1, w1 := ThroughPhase(w, id, Entry);
    OneStep(w1, WorkerStep(id));
    var w2 := Step(w1, WorkerStep(id));
    assert w2.workers[id] == Worker(w.workers[id].token, w.generation, At(Unlocked, 0));
    LeadsThen(w, e1, w1, [WorkerStep(id)], w2);
    var e3, w3 := ThroughPhase(w2, id, Unlocked);
    LeadsThen(w, e1 + [WorkerStep(id)], w2, e3, w3);
    var e4;
    e4, w' := ThroughPhase(w3, id, Locked);
    LeadsThen(w, e1 + [WorkerStep(id)] + e3, w3, e4, w');
    events := e1 + [WorkerStep(id)] + e3 + e4;
  }

  /** A replacement has begun and does not cover the token of a waiting worker: once whoever holds the
      flag is done it swaps its database in, and before it bumps the generation the worker compacts it. */
  lemma UncoveredCanCompact(w: World, r: nat, id: nat) returns (events: seq<Event>, w': World)
    requires OneWorker(w) && r in w.replacements && w.replacements[r].Cancelling?
    requires id in w.workers && w.workers[id].pc == At(Entry, 0) && w.workers[id].token !in w.cancelled
    ensures Leads(w, events, w') && (w.workers[id].token, r) in w'.compactions
  {
    var e1, w1 := Quieten(w);
    assert w1.workers[id] == w.workers[id];
    var calm := Elsewhere(false, false, true, false);
    OneStep(w1, calm);
    var w2 := Step(w1, calm);
    OneStep(w2, ReplaceSwaps(r));
    var w3 := Step(w2, ReplaceSwaps(r));
    var e4;
    e4, w' := StraightThrough(w3, id);
    LeadsThen(w, e1, w1, [calm], w2);
    LeadsThen(w, e1 + [calm], w2, [ReplaceSwaps(r)], w3);
    LeadsThen(w, e1 + [calm] + [ReplaceSwaps(r)], w3, e4, w');
    events := e1 + [calm] + [ReplaceSwaps(r)] + e4;
    assert w'.compactions[|w'.compactions| - 1] == (w.workers[id].token, r);
  }

  lemma CoverKept(w: World, e: Event, r: nat)
    requires OneWorker(w) && NoForbiddenCompaction(w) && r in w.covered && Enabled(w, e)
    ensures r in Step(w, e).covered && Step(w, e).covered[r] == w.covered[r]
  {
    if e.WorkerStep? { WorkerStepHasEffect(w, e.worker); }
  }

  lemma {:induction false} CoverStays(w: World, events: seq<Event>, w': World, r: nat)
    requires OneWorker(w) && NoForbiddenCompaction(w) && r in w.covered && Leads(w, events, w')
    ensures r in w'.covered && w'.covered[r] == w.covered[r]
    decreases |events|
  {
    if events != [] {
      CoverKept(w, events[0], r);
      WorldStep(w, events[0]);
      CoverStays(Step(w, events[0]), events[1..], w', r);
    }
  }

  ghost predicate CanCompact(w: World, token: nat, r: nat) {
    exists events, w' :: Leads(w, events, w') && (token, r) in w'.compactions
  }

  lemma CoveredCannotCompact(w: World, token: nat, r: nat)
    requires OneWorker(w) && NoForbiddenCompaction(w) && r != 0 && r in w.covered && token in w.covered[r]
    ensures !CanCompact(w, token, r)
  {
    forall more, w' | Leads(w, more, w') ensures (token, r) !in w'.compactions {
      WorldRun(w, more, w');
      CoverStays(w, more, w', r);
      assert forall k | 0 <= k < |w'.compactions| :: Allowed(w', w'.compactions[k]);
    }
  }

  lemma BeginCovers(w: World, r: nat)
    requires Enabled(w, ReplaceBegins(r))
    ensures var begun := Step(w, ReplaceBegins(r));
            && r in begun.covered && begun.covered[r] == w.cancelled + (if w.slot.Some? then {w.slot.value} else {})
            && begun.cancelled == begun.covered[r] && begun.workers == w.workers
            && r in begun.replacements && begun.replacements[r].Cancelling?
  {
  }

  /** The protection is exact. When a replacement begins, after any run, a worker that waits to start can
      still come to compact the database it will install exactly when its token is not covered: when it
      was neither cancelled nor in the slot, another token having been registered over it. */
  lemma CompactsExactlyTheUncovered(start: World, events: seq<Event>, w: World, r: nat, id: nat)
    requires start == Start(start.active, start.paused, start.ready, start.journalBlocks) && Leads(start, events, w)
    requires Enabled(w, ReplaceBegins(r)) && id in w.workers && w.workers[id].pc == At(Entry, 0)
    ensures CanCompact(Step(w, ReplaceBegins(r)), w.workers[id].token, r)
       <==> w.workers[id].token !in w.cancelled && w.slot != Some(w.workers[id].token)
  {
    WorldRun(start, events, w);
    WorldStep(w, ReplaceBegins(r));
    BeginCovers(w, r);
    var begun, token := Step(w, ReplaceBegins(r)), w.workers[id].token;
    if token in begun.covered[r] {
      CoveredCannotCompact(begun, token, r);
    } else {
      var more, w' := UncoveredCanCompact(begun, r, id);
      assert CanCompact(begun, token, r);
    }
  }
}

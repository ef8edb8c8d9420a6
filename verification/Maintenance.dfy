/** Maintenance mode, its durable journal and the decision taken at the next startup
    (src-tauri/src/maintenance.rs, maintenance_journal.rs, state.rs, quiescence.rs). */
module Maintenance {
  import opened Common

  datatype Stage =
    | Inactive | Preparing | CancellingWork | Flushing | SafetyBackup | Staging | Validating
    | AwaitingConfirmation | Swapping | Reopening | Rehydrating | RollingBack | Completed | Failed
    | RecoveryRequired

  function StageName(stage: Stage): string {
    match stage
    case Inactive => "inactive"
    case Preparing => "preparing"
    case CancellingWork => "cancelling-work"
    case Flushing => "flushing"
    case SafetyBackup => "safety-backup"
    case Staging => "staging"
    case Validating => "validating"
    case AwaitingConfirmation => "awaiting-confirmation"
    case Swapping => "swapping"
    case Reopening => "reopening"
    case Rehydrating => "rehydrating"
    case RollingBack => "rolling-back"
    case Completed => "completed"
    case Failed => "failed"
    case RecoveryRequired => "recovery-required"
  }

  predicate Irreversible(stage: Stage) { stage.Swapping? || stage.Reopening? || stage.Rehydrating? }

  predicate PreSwap(stage: Stage) {
    stage.Preparing? || stage.CancellingWork? || stage.Flushing? || stage.SafetyBackup? || stage.Staging?
    || stage.Validating? || stage.AwaitingConfirmation?
  }

  datatype Operation = Operation(id: nat, stage: Stage, irreversible: bool)

  datatype Journal = Journal(operationId: nat, stage: string, irreversible: bool, profileGeneration: nat)

  datatype MaintenanceError = InProgress | NoOperation | IdMismatch | StorageFailure

  function AtStage(op: Operation, stage: Stage): Operation {
    op.(stage := stage, irreversible := op.irreversible || Irreversible(stage))
  }

  function Touched(j: Journal, stage: Stage, generation: nat): Journal {
    j.(stage := StageName(stage), irreversible := j.irreversible || Irreversible(stage), profileGeneration := generation)
  }

  // ------------------------------------------------------------ startup

  datatype Action = Nothing | RollBack | EnterRecovery

  function Classify(j: Journal): Action {
    match j.stage
    case "completed" => Nothing
    case "inactive" => Nothing
    case "failed" => EnterRecovery
    case "recovery-required" => EnterRecovery
    case "swapping" => EnterRecovery
    case "reopening" => EnterRecovery
    case "rehydrating" => EnterRecovery
    case "rolling-back" => RollBack
    case "preparing" => RollBack
    case "cancelling-work" => RollBack
    case "flushing" => RollBack
    case "safety-backup" => RollBack
    case "staging" => RollBack
    case "validating" => RollBack
    case "awaiting-confirmation" => RollBack
    case _ => EnterRecovery
  }

  datatype Outcome = Cleared | Recovery | NoOp

  /** The decision for the journal found at startup and what is left on disk. */
  function ApplyStartupDecision(j: Journal, action: Action): (Outcome, Option<Journal>) {
    match action
    case Nothing => if j.stage == "completed" || j.stage == "inactive" then (Cleared, None) else (NoOp, Some(j))
    case RollBack => if !j.irreversible then (Cleared, None) else (Recovery, Some(j))
    case EnterRecovery => (Recovery, Some(j))
  }

  function Startup(j: Journal): (Outcome, Option<Journal>) { ApplyStartupDecision(j, Classify(j)) }

  /** A journal as one operation leaves it: created, then touched at each stage. */
  function JournalAfter(operationId: nat, generation: nat, stages: seq<Stage>): Journal {
    if stages == [] then Journal(operationId, StageName(Preparing), false, generation)
    else Touched(JournalAfter(operationId, generation, stages[..|stages| - 1]), stages[|stages| - 1], generation)
  }

  function LastStage(stages: seq<Stage>): Stage { if stages == [] then Preparing else stages[|stages| - 1] }

  predicate EverIrreversible(stages: seq<Stage>) { exists i | 0 <= i < |stages| :: Irreversible(stages[i]) }

  lemma {:induction false} JournalTellsHistory(operationId: nat, generation: nat, stages: seq<Stage>)
    ensures JournalAfter(operationId, generation, stages).stage == StageName(LastStage(stages))
    ensures JournalAfter(operationId, generation, stages).irreversible <==> EverIrreversible(stages)
    ensures JournalAfter(operationId, generation, stages).operationId == operationId
    decreases |stages|
  {
    if stages != [] {
      var before := stages[..|stages| - 1];
      JournalTellsHistory(operationId, generation, before);
      assert forall i | 0 <= i < |before| :: before[i] == stages[i];
    }
  }

  /** What startup does after any stage history: it clears the journal exactly when the operation had
      completed, or was before the swap or rolling back with no irreversible stage ever journaled.
      In every other case it enters Recovery and keeps the journal. */
  lemma StartupAfterAnyHistory(operationId: nat, generation: nat, stages: seq<Stage>)
    ensures var j, last := JournalAfter(operationId, generation, stages), LastStage(stages);
            Startup(j) ==
              if last.Completed? || last.Inactive? || (!EverIrreversible(stages) && (PreSwap(last) || last.RollingBack?))
              then (Cleared, None) else (Recovery, Some(j))
  {
    JournalTellsHistory(operationId, generation, stages);
  }

  /** What startup does with any journal, also one of a version that knows other stages: it is cleared if
      it says completed or inactive, or if it says a stage before the swap or rolling back and was never
      irreversible; else the journal stays and Recovery begins. */
  lemma StartupByName(j: Journal)
    ensures Startup(j) ==
              if j.stage in {"completed", "inactive"}
                 || (!j.irreversible && j.stage in {"preparing", "cancelling-work", "flushing", "safety-backup", "staging",
                                                    "validating", "awaiting-confirmation", "rolling-back"})
              then (Cleared, None) else (Recovery, Some(j))
  {
  }

  /** A decision other than the one the stage calls for never clears a journal that is unfinished and was
      irreversible. */
  lemma DecisionKeepsUnfinished(j: Journal, action: Action)
    requires j.stage !in {"completed", "inactive"} && j.irreversible
    ensures ApplyStartupDecision(j, action).1 == Some(j)
    ensures ApplyStartupDecision(j, action).0 == if action.Nothing? then NoOp else Recovery
  {
  }

  /** The stages in the order of their names in a journal. */
  function StageNames(): seq<(Stage, string)> {
    [(Inactive, "inactive"), (Preparing, "preparing"), (CancellingWork, "cancelling-work"), (Flushing, "flushing"),
     (SafetyBackup, "safety-backup"), (Staging, "staging"), (Validating, "validating"),
     (AwaitingConfirmation, "awaiting-confirmation"), (Swapping, "swapping"), (Reopening, "reopening"),
     (Rehydrating, "rehydrating"), (RollingBack, "rolling-back"), (Completed, "completed"), (Failed, "failed"),
     (RecoveryRequired, "recovery-required")]
  }

  /** The journal tells every stage by a name of its own. */
  lemma NamesTellStages(j: Journal, stage: Stage, other: Stage, generation: nat)
    ensures Touched(j, stage, generation).stage == Touched(j, other, generation).stage <==> stage == other
    ensures (stage, Touched(j, stage, generation).stage) in StageNames()
    ensures Touched(j, stage, generation).profileGeneration == generation
    ensures Touched(j, stage, generation).operationId == j.operationId
  {
    var names := StageNames();
    assert names[0] in names && names[1] in names && names[2] in names && names[3] in names && names[4] in names;
    assert names[5] in names && names[6] in names && names[7] in names && names[8] in names && names[9] in names;
    assert names[10] in names && names[11] in names && names[12] in names && names[13] in names && names[14] in names;
  }

  // ------------------------------------------------------------ the objects

  /** At most one maintenance operation is active. */
  class MaintenanceMode {
    var active: Option<Operation>

    constructor ()
      ensures active == None
    {
      active := None;
    }

    method Begin(id: nat) returns (r: Result<nat, MaintenanceError>)
      modifies this
      ensures old(active).Some? ==> r == Err(InProgress) && active == old(active)
      ensures old(active).None? ==> r == Ok(id) && active == Some(Operation(id, Preparing, false))
    {
      if active.Some? {
        return Err(InProgress);
      }
      active := Some(Operation(id, Preparing, false));
      r := Ok(id);
    }

    method SetStage(id: nat, stage: Stage) returns (r: Result<(), MaintenanceError>)
      modifies this
      ensures r == if old(active).None? then Err(NoOperation) else if old(active).value.id != id then Err(IdMismatch) else Ok(())
      ensures active == if r.Ok? then Some(AtStage(old(active).value, stage)) else old(active)
    {
      if active.None? {
        return Err(NoOperation);
      }
      var op := active.value;
      if op.id != id {
        return Err(IdMismatch);
      }
      if Irreversible(stage) {
        op := op.(irreversible := true);
      }
      active := Some(op.(stage := stage));
      r := Ok(());
    }

    method Clear(id: nat) returns (r: Result<(), MaintenanceError>)
      modifies this
      ensures r == if old(active).Some? && old(active).value.id != id then Err(IdMismatch) else Ok(())
      ensures active == if r.Ok? then None else old(active)
    {
      if active.Some? && active.value.id != id {
        return Err(IdMismatch);
      }
      active := None;
      r := Ok(());
    }
  }

  datatype Quiescence = Quiescence(generation: nat, paused: bool, pauseGeneration: nat)

  predicate MayResume(q: Quiescence, token: nat) { q.paused && token == q.pauseGeneration && token == q.generation }

  /** A pause of an older generation is not resumed by any token. */
  lemma OldPauseStays(q: Quiescence, token: nat)
    requires q.pauseGeneration != q.generation
    ensures !MayResume(q, token)
  {
  }

  class QuiescenceCoordinator {
    var generation: nat
    var paused: bool
    var pauseGeneration: nat

    ghost function View(): Quiescence
      reads this
    {
      Quiescence(generation, paused, pauseGeneration)
    }

    constructor ()
      ensures View() == Quiescence(0, false, 0)
    {
      generation, paused, pauseGeneration := 0, false, 0;
    }

    method BumpGeneration() returns (now: nat)
      modifies this
      ensures View() == old(View()).(generation := old(generation) + 1) && now == generation
    {
      generation := generation + 1;
      now := generation;
    }

    method Pause() returns (token: nat)
      modifies this
      ensures View() == Quiescence(old(generation), true, old(generation)) && token == generation
    {
      token := generation;
      pauseGeneration := token;
      paused := true;
    }

    method Resume(token: nat) returns (ok: bool)
      modifies this
      ensures ok <==> MayResume(old(View()), token)
      ensures View() == if ok then old(View()).(paused := false) else old(View())
    {
      if !paused {
        return false;
      }
      if token != pauseGeneration || token != generation {
        return false;
      }
      paused := false;
      ok := true;
    }

    method ForceResume()
      modifies this
      ensures View() == old(View()).(paused := false)
    {
      paused := false;
    }
  }

  datatype QuiescenceCall = PauseCall | ResumeCall(token: nat) | BumpCall | ForceResumeCall

  function AfterCalls(q: Quiescence, calls: seq<QuiescenceCall>): Quiescence {
    if calls == [] then q
    else
      var q := AfterCalls(q, calls[..|calls| - 1]);
      match calls[|calls| - 1]
      case PauseCall => Quiescence(q.generation, true, q.generation)
      case ResumeCall(token) => if MayResume(q, token) then q.(paused := false) else q
      case BumpCall => q.(generation := q.generation + 1)
      case ForceResumeCall => q.(paused := false)
  }

  lemma {:induction false} AfterPause(q: Quiescence, calls: seq<QuiescenceCall>)
    requires q.paused && q.pauseGeneration == q.generation
    ensures var q' := AfterCalls(q, calls);
      && q.generation <= q'.generation && q.pauseGeneration <= q'.pauseGeneration <= q'.generation
      && (q'.generation == q.generation <==> BumpCall !in calls)
    decreases |calls|
  {
    if calls != [] {
      var before := calls[..|calls| - 1];
      AfterPause(q, before);
      assert calls == before + [calls[|calls| - 1]];
    }
  }

  /** A pause token resumes, whatever was called since it was issued, exactly while work is paused and
      the generation has not been bumped. A stale token can never undo a newer generation's pause. */
  lemma TokenResumesExactlyWithinItsGeneration(before: Quiescence, calls: seq<QuiescenceCall>)
    ensures var issued := Quiescence(before.generation, true, before.generation);
            var now := AfterCalls(issued, calls);
            MayResume(now, before.generation) <==> now.paused && BumpCall !in calls
  {
    AfterPause(Quiescence(before.generation, true, before.generation), calls);
  }

  /** Maintenance mode, the pause gate and the journal on disk, as `AppState` holds them, with the slot of
      the deferred worker's cancellation token and the tokens cancelled so far. */
  class MaintenanceState {
    const mode: MaintenanceMode
    const quiescence: QuiescenceCoordinator
    var disk: Option<Journal>
    var workerToken: Option<nat>
    var cancelled: set<nat>

    ghost predicate Valid()
      reads this, mode, quiescence
    {
      mode.active.Some? ==>
        && quiescence.paused
        && disk.Some?
        && disk.value.operationId == mode.active.value.id
        && disk.value.stage == StageName(mode.active.value.stage)
        && disk.value.irreversible == mode.active.value.irreversible
    }

    constructor (disk: Option<Journal>)
      ensures Valid() && mode.active == None && !quiescence.paused && this.disk == disk
      ensures fresh(mode) && fresh(quiescence)
    {
      mode := new MaintenanceMode();
      quiescence := new QuiescenceCoordinator();
      this.disk := disk;
      workerToken, cancelled := None, {};
    }

    method CancelWorker()
      modifies this`workerToken, this`cancelled
      ensures workerToken == None
      ensures cancelled == old(cancelled) + (if old(workerToken).Some? then {old(workerToken).value} else {})
    {
      if workerToken.Some? {
        cancelled := cancelled + {workerToken.value};
        workerToken := None;
      }
    }

    /** `id` is the fresh operation id and `persists` whether the journal can be written. The deferred
        worker is cancelled even when the operation is then refused. */
    method BeginMaintenance(id: nat, persists: bool) returns (r: Result<nat, MaintenanceError>)
      requires Valid()
      modifies this, mode, quiescence
      ensures Valid()
      ensures workerToken == None
      ensures cancelled == old(cancelled) + (if old(workerToken).Some? then {old(workerToken).value} else {})
      ensures old(mode.active).Some? ==> r == Err(InProgress) && mode.active == old(mode.active) && disk == old(disk)
                                         && quiescence.View() == old(quiescence.View())
      ensures old(mode.active).None? && persists ==>
                && r == Ok(id) && mode.active == Some(Operation(id, Preparing, false))
                && disk == Some(JournalAfter(id, quiescence.generation, []))
                && quiescence.View() == Quiescence(old(quiescence.generation), true, old(quiescence.generation))
      ensures old(mode.active).None? && !persists ==>
                r == Err(StorageFailure) && mode.active == None && !quiescence.paused && disk == old(disk)
    {
      CancelWorker();
      r := mode.Begin(id);
      if r.Err? {
        return;
      }
      var _ := quiescence.Pause();
      if persists {
        disk := Some(Journal(id, StageName(Preparing), false, quiescence.generation));
      } else {
        var _ := mode.Clear(id);
        quiescence.ForceResume();
        r := Err(StorageFailure);
      }
    }

    method SetMaintenanceStage(id: nat, stage: Stage) returns (r: Result<(), MaintenanceError>)
      requires Valid()
      modifies this`disk, mode
      ensures Valid()
      ensures r.Ok? <==> old(mode.active).Some? && old(mode.active).value.id == id
      ensures r.Ok? ==> disk == Some(Touched(old(disk).value, stage, quiescence.generation))
                        && mode.active == Some(AtStage(old(mode.active).value, stage))
      ensures r.Err? ==> disk == old(disk) && mode.active == old(mode.active)
    {
      r := mode.SetStage(id, stage);
      if r.Err? {
        return;
      }
      if disk.Some? {
        var journal := disk.value;
        if journal.operationId == id {
          if Irreversible(stage) {
            journal := journal.(irreversible := true);
          }
          disk := Some(journal.(stage := StageName(stage), profileGeneration := quiescence.generation));
        }
      }
    }

    method ClearMaintenance(id: nat) returns (r: Result<(), MaintenanceError>)
      requires Valid()
      modifies this`disk, mode, quiescence
      ensures Valid()
      ensures r.Err? <==> old(mode.active).Some? && old(mode.active).value.id != id
      ensures r.Err? ==> mode.active == old(mode.active) && disk == old(disk) && quiescence.View() == old(quiescence.View())
      ensures r.Ok? ==> mode.active == None && !quiescence.paused
                        && disk == (if old(disk).Some? && old(disk).value.operationId == id then None else old(disk))
    {
      r := mode.Clear(id);
      if r.Err? {
        return;
      }
      quiescence.ForceResume();
      if disk.Some? && disk.value.operationId == id {
        disk := None;
      }
    }
  }
}

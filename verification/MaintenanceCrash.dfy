/** Maintenance calls that overlap, fail to write and crash, over any number of lives of the process.
    The calls of `AppState` are cut at every access to shared memory or disk and the profile swap is a
    step of its own, so another call or a crash can fall between any two of them. A crash is followed by
    a restart, to which only the journal survives.

    The callers are `create_profile_backup` and `restore_profile_backup`: each begins an operation, drives
    it alone and clears it at most once. Neither is an async command, so today they run one after the
    other (`Serial`); nothing in `AppState` makes them, so the general results assume no order. */
module MaintenanceCrash {
  import opened Common
  import opened Maintenance

  /** What is left to do of a call in progress. */
  datatype Pc =
    | Activated                                // begin: operation active, work not yet paused
    | PausedFor                                // begin: journal not yet written
    | Abandoned                                // begin: the journal write failed, work still paused
    | StageSet(stage: Stage)                   // set_stage: journal not yet loaded
    | StageRead(stage: Stage, loaded: Journal) // set_stage: touched journal not yet written
    | Deactivated                              // clear: work still paused
    | Resumed                                  // clear: journal not yet looked at
    | JournalMatched                           // clear: journal about to be removed

  /** `calls` holds the call in progress of each operation, `live` the operations begun in this life and
      `used` those of all lives. `broken` (history) are the operations that have begun to replace the
      profile and not completed. `recovery` is the decision of the last startup. */
  datatype Machine = Machine(
    active: Option<Operation>, paused: bool, disk: Option<Journal>, calls: map<nat, Pc>,
    live: set<nat>, used: set<nat>, broken: set<nat>, recovery: bool)

  datatype Event =
    | Begin(id: nat)
    | SetStage(id: nat, stage: Stage)
    | Clear(id: nat)
    | Advance(id: nat)
    | WriteFails(id: nat)
    | SwapProfile(id: nat)
    | CrashAndRestart

  predicate Enabled(m: Machine, e: Event) {
    match e
    case Begin(id) => id !in m.used
    case SetStage(id, _) => id in m.live && id !in m.calls
    case Clear(id) => id in m.live && id !in m.calls
    case Advance(id) => id in m.calls
    case WriteFails(id) => id in m.calls && (m.calls[id].PausedFor? || m.calls[id].StageRead? || m.calls[id].JournalMatched?)
    case SwapProfile(id) =>
      // follows the return of set_stage, whose result is ignored
      m.active.Some? && m.active.value.id == id && Irreversible(m.active.value.stage) && id !in m.calls
    case CrashAndRestart => true
  }

  predicate IsJournalOf(disk: Option<Journal>, id: nat) { disk.Some? && disk.value.operationId == id }

  /** The next access of the call of operation `id`. */
  function Advanced(m: Machine, id: nat): Machine
    requires id in m.calls
  {
    var finished := m.(calls := m.calls - {id});
    match m.calls[id]
    case Activated => m.(paused := true, calls := m.calls[id := PausedFor])
    case PausedFor => finished.(disk := Some(Journal(id, StageName(Preparing), false, 0)))
    case Abandoned => finished.(paused := false)
    case StageSet(stage) =>
      if IsJournalOf(m.disk, id) then m.(calls := m.calls[id := StageRead(stage, m.disk.value)]) else finished
    case StageRead(stage, loaded) => finished.(disk := Some(Touched(loaded, stage, 0)))
    case Deactivated => m.(paused := false, calls := m.calls[id := Resumed])
    case Resumed => if IsJournalOf(m.disk, id) then m.(calls := m.calls[id := JournalMatched]) else finished
    case JournalMatched => finished.(disk := None)
  }

  function Restarted(m: Machine): Machine {
    var (outcome, disk) := if m.disk.Some? then Startup(m.disk.value) else (NoOp, None);
    Machine(None, outcome.Recovery?, disk, map[], {}, m.used, m.broken, outcome.Recovery?)
  }

  function Step(m: Machine, e: Event): Machine
    requires Enabled(m, e)
  {
    match e
    case Begin(id) =>
      if m.active.Some? then m
      else m.(active := Some(Operation(id, Preparing, false)), calls := m.calls[id := Activated],
              live := m.live + {id}, used := m.used + {id})
    case SetStage(id, stage) =>
      if m.active.None? || m.active.value.id != id then m
      else m.(active := Some(AtStage(m.active.value, stage)), calls := m.calls[id := StageSet(stage)],
              // completing a replacement leaves nothing half replaced
              broken := if stage.Completed? && id in m.broken then {} else m.broken)
    case Clear(id) =>
      if m.active.Some? && m.active.value.id != id then m
      else m.(active := None, calls := m.calls[id := Deactivated])
    case Advance(id) => Advanced(m, id)
    case WriteFails(id) =>
      if m.calls[id].PausedFor? then m.(active := None, calls := m.calls[id := Abandoned])
      else m.(calls := m.calls - {id})
    case SwapProfile(id) => m.(broken := m.broken + {id})
    case CrashAndRestart => Restarted(m)
  }

  const START := Machine(None, false, None, map[], {}, {}, {}, false)

  predicate Possible(m: Machine, events: seq<Event>)
    decreases |events|
  {
    events == [] || (Enabled(m, events[0]) && Possible(Step(m, events[0]), events[1..]))
  }

  function After(m: Machine, events: seq<Event>): Machine
    requires Possible(m, events)
    decreases |events|
  {
    if events == [] then m else After(Step(m, events[0]), events[1..])
  }

  /** A clear looks at the journal and removes it next if it is the operation's own; otherwise it ends and
      leaves the disk alone. */
  lemma ClearSparesOtherJournals(m: Machine, id: nat)
    requires id in m.calls && m.calls[id].Resumed?
    ensures var m' := Step(m, Advance(id));
            && m'.disk == m.disk && m'.paused == m.paused && m'.active == m.active
            && (id in m'.calls <==> m.disk.Some? && m.disk.value.operationId == id)
            && (id in m'.calls ==> m'.calls[id].JournalMatched?)
  {
  }

  /** What counts as half replaced: an operation's swap breaks the profile, and accepting that such an
      operation has completed mends it. Nothing else does, crashes included. */
  lemma BrokenIsTold(m: Machine, e: Event)
    requires Enabled(m, e)
    ensures Step(m, e).broken ==
              if e.SwapProfile? then m.broken + {e.id}
              else if e.SetStage? && e.stage.Completed? && e.id in m.broken && m.active.Some? && m.active.value.id == e.id then {}
              else m.broken
  {
    if e.Advance? { AdvancingBreaksNothing(m, e.id); }
  }

  lemma AdvancingBreaksNothing(m: Machine, id: nat)
    requires id in m.calls
    ensures Advanced(m, id).broken == m.broken
  {
  }

  // ------------------------------------------------------------ what every interleaving keeps

  predicate OfActive(pc: Pc) { pc.Activated? || pc.PausedFor? || pc.StageSet? || pc.StageRead? }

  /** How far the active operation's begin has got. */
  predicate Begun(m: Machine, pc: Pc) {
    m.active.Some? && m.active.value.id in m.calls && m.calls[m.active.value.id] == pc
  }

  ghost predicate CallOk(m: Machine, id: nat)
    requires id in m.calls
  {
    var pc := m.calls[id];
    && id in m.live
    && (OfActive(pc) <==> m.active.Some? && m.active.value.id == id)
    && (pc.Activated? || pc.PausedFor? ==> m.active == Some(Operation(id, Preparing, false)))
    && (pc.StageRead? ==> pc.loaded.operationId == id && (m.disk.Some? ==> m.disk == Some(pc.loaded)))
    && (pc.StageSet? || pc.StageRead? ==> m.active.value.stage == pc.stage && (pc.stage.Completed? ==> id !in m.broken))
  }

  ghost predicate Consistent(m: Machine) {
    && m.live <= m.used
    && (m.active.Some? ==> m.active.value.id in m.live)
    && (m.active.Some? && m.disk.Some? ==>
          m.disk.value.operationId == m.active.value.id || Begun(m, Activated) || Begun(m, PausedFor))
    && forall id :: id in m.calls ==> CallOk(m, id)
  }

  lemma AdvanceConsistent(m: Machine, id: nat)
    requires Consistent(m) && id in m.calls
    ensures Consistent(Advanced(m, id))
  {
    var m' := Advanced(m, id);
    assert CallOk(m, id);
    forall x | x in m'.calls ensures CallOk(m', x) {
      assert CallOk(m, x);
    }
  }

  lemma StepConsistent(m: Machine, e: Event)
    requires Consistent(m) && Enabled(m, e)
    ensures Consistent(Step(m, e))
  {
    if e.Advance? {
      AdvanceConsistent(m, e.id);
    } else {
      var m' := Step(m, e);
      if e.WriteFails? { assert CallOk(m, e.id); }
      forall x | x in m'.calls ensures CallOk(m', x) {
        if x in m.calls { assert CallOk(m, x); }
      }
    }
  }

  // ------------------------------------------------------------ pause and mirror

  predicate Mirrors(j: Option<Journal>, op: Operation) {
    IsJournalOf(j, op.id) && j.value.stage == StageName(op.stage) && j.value.irreversible == op.irreversible
  }

  /** While an operation is active work is paused, as soon as its begin got there, and the journal mirrors
      the operation, or will once the stage in hand is written. */
  predicate PausedAndMirrored(m: Machine) {
    m.active.Some? ==>
      var op := m.active.value;
      if op.id !in m.calls then m.paused && Mirrors(m.disk, op)
      else match m.calls[op.id]
        case Activated => true
        case PausedFor => m.paused
        case StageSet(stage) =>
          m.paused && IsJournalOf(m.disk, op.id) && Mirrors(Some(Touched(m.disk.value, stage, 0)), op)
        case StageRead(stage, loaded) =>
          m.paused && m.disk == Some(loaded) && Mirrors(Some(Touched(loaded, stage, 0)), op)
        case _ => false
  }

  /** A clear, or a begin whose journal write failed, resumes work after another operation has paused it;
      a clear removes the journal after another operation has written its own; or a stage write fails that
      would have changed the journal. */
  predicate Harms(m: Machine, e: Event)
    requires Enabled(m, e)
  {
    match e
    case Advance(id) =>
      var pc := m.calls[id];
      if pc.Deactivated? || pc.Abandoned? then m.active.Some? && !Begun(m, Activated)
      else pc.JournalMatched? && m.active.Some? && !Begun(m, Activated) && !Begun(m, PausedFor)
    case WriteFails(id) =>
      var pc := m.calls[id];
      pc.StageRead? && (pc.loaded.stage != StageName(pc.stage) || (Irreversible(pc.stage) && !pc.loaded.irreversible))
    case _ => false
  }

  lemma AdvanceHarmsExactly(m: Machine, id: nat)
    requires Consistent(m) && PausedAndMirrored(m) && id in m.calls
    ensures PausedAndMirrored(Advanced(m, id)) <==> !Harms(m, Advance(id))
  {
    assert CallOk(m, id);
    if m.active.Some? && m.active.value.id in m.calls { assert CallOk(m, m.active.value.id); }
  }

  lemma StepHarmsExactly(m: Machine, e: Event)
    requires Consistent(m) && PausedAndMirrored(m) && Enabled(m, e)
    ensures PausedAndMirrored(Step(m, e)) <==> !Harms(m, e)
  {
    if e.Advance? {
      AdvanceHarmsExactly(m, e.id);
    } else {
      if e.WriteFails? { assert CallOk(m, e.id); }
      if m.active.Some? && m.active.value.id in m.calls { assert CallOk(m, m.active.value.id); }
    }
  }

  predicate AlwaysMirrored(m: Machine, events: seq<Event>)
    requires Possible(m, events)
    decreases |events|
  {
    PausedAndMirrored(m) && (events == [] || AlwaysMirrored(Step(m, events[0]), events[1..]))
  }

  predicate NeverHarms(m: Machine, events: seq<Event>)
    requires Possible(m, events)
    decreases |events|
  {
    events == [] || (!Harms(m, events[0]) && NeverHarms(Step(m, events[0]), events[1..]))
  }

  lemma {:induction false} MirroredFrom(m: Machine, events: seq<Event>)
    requires Consistent(m) && PausedAndMirrored(m) && Possible(m, events)
    ensures AlwaysMirrored(m, events) <==> NeverHarms(m, events)
    decreases |events|
  {
    if events != [] {
      var m' := Step(m, events[0]);
      StepConsistent(m, events[0]);
      StepHarmsExactly(m, events[0]);
      if PausedAndMirrored(m') { MirroredFrom(m', events[1..]); }
    }
  }

  /** In any run of overlapping calls, failing writes, crashes and restarts: at every moment an active
      operation has work paused and its journal mirrors it, exactly when no clear or failed begin takes
      its resume step after another operation has paused work, no clear takes its remove step after
      another operation has written its journal, and no stage write that matters fails. */
  lemma MirroredExactly(events: seq<Event>)
    requires Possible(START, events)
    ensures AlwaysMirrored(START, events) <==> NeverHarms(START, events)
  {
    MirroredFrom(START, events);
  }

  /** One call at a time: a call starts only when no other is in progress. */
  predicate Serial(m: Machine, e: Event) { (e.Begin? || e.SetStage? || e.Clear?) ==> m.calls == map[] }

  ghost predicate SerialRun(m: Machine, events: seq<Event>)
    requires Possible(m, events)
    decreases |events|
  {
    events == [] || (Serial(m, events[0]) && SerialRun(Step(m, events[0]), events[1..]))
  }

  /** The call in progress is the only one. */
  predicate OneCall(m: Machine) {
    forall id :: id in m.calls ==> m.calls == map[id := m.calls[id]] && (m.active.Some? ==> OfActive(m.calls[id]))
  }

  lemma SerialStep(m: Machine, e: Event)
    requires Consistent(m) && OneCall(m) && Enabled(m, e) && Serial(m, e)
    ensures OneCall(Step(m, e)) && (Harms(m, e) ==> e.WriteFails?)
  {
    var m' := Step(m, e);
    if e.Advance? || e.WriteFails? {
      assert CallOk(m, e.id);
      assert e.id in m'.calls || m'.calls == map[];
      assert forall id :: id in m'.calls ==> id == e.id;
    }
    forall id | id in m'.calls
      ensures m'.calls == map[id := m'.calls[id]] && (m'.active.Some? ==> OfActive(m'.calls[id]))
    {
    }
  }

  predicate WritesSucceed(events: seq<Event>) { forall e :: e in events ==> !e.WriteFails? }

  lemma {:induction false} SerialFrom(m: Machine, events: seq<Event>)
    requires Consistent(m) && OneCall(m) && Possible(m, events) && SerialRun(m, events) && WritesSucceed(events)
    ensures NeverHarms(m, events)
    decreases |events|
  {
    if events != [] {
      StepConsistent(m, events[0]);
      SerialStep(m, events[0]);
      assert forall e :: e in events[1..] ==> e in events;
      SerialFrom(Step(m, events[0]), events[1..]);
    }
  }

  /** With one call at a time and no failing write an active operation is paused and mirrored at every
      moment, over any number of crashes and restarts. */
  lemma ActiveMeansPausedAndMirrored(events: seq<Event>)
    requires Possible(START, events) && SerialRun(START, events) && WritesSucceed(events)
    ensures AlwaysMirrored(START, events)
  {
    SerialFrom(START, events);
    MirroredExactly(events);
  }

  // ------------------------------------------------------------ a half-replaced profile is not forgotten

  /** The journal is that of `id` and startup answers it with Recovery. */
  predicate Remembers(disk: Option<Journal>, id: nat) {
    && IsJournalOf(disk, id) && disk.value.irreversible
    && disk.value.stage != StageName(Completed) && disk.value.stage != StageName(Inactive)
  }

  /** Every operation that broke off while replacing the profile is remembered on disk. */
  predicate Remembered(m: Machine) { forall id :: id in m.broken ==> Remembers(m.disk, id) }

  /** A begin writes its journal, or a clear removes one, while a replacement is broken off; a broken-off
      operation journals `inactive`; or a swap begins without an irreversible journal of its own. */
  predicate Forgets(m: Machine, e: Event)
    requires Enabled(m, e)
  {
    match e
    case Advance(id) =>
      var pc := m.calls[id];
      if pc.PausedFor? || pc.JournalMatched? then m.broken != {}
      else pc.StageRead? && pc.stage.Inactive? && id in m.broken
    case SwapProfile(id) => !Remembers(m.disk, id)
    case _ => false
  }

  lemma AdvanceForgetsExactly(m: Machine, id: nat)
    requires Consistent(m) && Remembered(m) && id in m.calls
    ensures Remembered(Advanced(m, id)) <==> !Forgets(m, Advance(id))
  {
    assert CallOk(m, id);
    var m' := Advanced(m, id);
    if m.broken != {} {
      var x :| x in m.broken;
      assert Remembers(m.disk, x);
      match m.calls[id]
      case PausedFor => assert !Remembers(m'.disk, x);
      case JournalMatched => assert !Remembers(m'.disk, x);
      case StageRead(stage, loaded) =>
        assert x == id;
        assert Remembers(m'.disk, id) <==> !stage.Inactive?;
      case _ =>
    }
  }

  lemma StepForgetsExactly(m: Machine, e: Event)
    requires Consistent(m) && Remembered(m) && Enabled(m, e)
    ensures Remembered(Step(m, e)) <==> !Forgets(m, e)
  {
    match e
    case Advance(id) => AdvanceForgetsExactly(m, id);
    case SwapProfile(id) => assert id in Step(m, e).broken;
    case _ =>
  }

  predicate AlwaysRemembered(m: Machine, events: seq<Event>)
    requires Possible(m, events)
    decreases |events|
  {
    Remembered(m) && (events == [] || AlwaysRemembered(Step(m, events[0]), events[1..]))
  }

  predicate NeverForgets(m: Machine, events: seq<Event>)
    requires Possible(m, events)
    decreases |events|
  {
    events == [] || (!Forgets(m, events[0]) && NeverForgets(Step(m, events[0]), events[1..]))
  }

  lemma {:induction false} RememberedFrom(m: Machine, events: seq<Event>)
    requires Consistent(m) && Remembered(m) && Possible(m, events)
    ensures AlwaysRemembered(m, events) <==> NeverForgets(m, events)
    decreases |events|
  {
    if events != [] {
      var m' := Step(m, events[0]);
      StepConsistent(m, events[0]);
      StepForgetsExactly(m, events[0]);
      if Remembered(m') { RememberedFrom(m', events[1..]); }
    }
  }

  /** Crash safety over any number of lives: in every state of a run each half-replaced profile is
      remembered on disk, exactly when no begin writes its journal and no clear removes one while a
      replacement is broken off, no such operation journals `inactive`, and every swap finds the
      operation's own irreversible journal. */
  lemma RememberedExactly(events: seq<Event>)
    requires Possible(START, events)
    ensures AlwaysRemembered(START, events) <==> NeverForgets(START, events)
  {
    RememberedFrom(START, events);
  }

  /** What remembering is for: the next startup, and every one after it, enters Recovery with work paused
      and keeps the journal. */
  lemma {:induction false} RecoveryPersists(m: Machine, id: nat, restarts: nat)
    requires Remembered(m) && id in m.broken && 0 < restarts
    ensures var events := seq(restarts, i => CrashAndRestart);
            && Possible(m, events)
            && After(m, events).recovery && After(m, events).paused
            && After(m, events).disk == m.disk && After(m, events).broken == m.broken
    decreases restarts
  {
    var events := seq(restarts, i => CrashAndRestart);
    assert Remembers(m.disk, id);
    var m' := Restarted(m);
    if restarts > 1 {
      RecoveryPersists(m', id, restarts - 1);
    }
    assert events[1..] == seq((restarts - 1) as nat, i => CrashAndRestart);
  }

  /** As the two commands run today: one call at a time, no failing write, no clear of an operation that
      has broken off, no stage `inactive`; and no begin over a replacement that an earlier life broke off. */
  predicate Disciplined(m: Machine, e: Event) {
    && Serial(m, e) && !e.WriteFails?
    && (e.Clear? ==> e.id !in m.broken)
    && (e.SetStage? ==> !e.stage.Inactive?)
    && (e.Begin? ==> m.broken == {} || m.active.Some?)
  }

  ghost predicate DisciplinedRun(m: Machine, events: seq<Event>)
    requires Possible(m, events)
    decreases |events|
  {
    events == [] || (Disciplined(m, events[0]) && DisciplinedRun(Step(m, events[0]), events[1..]))
  }

  ghost predicate InHand(m: Machine) {
    && OneCall(m) && PausedAndMirrored(m)
    && (m.active.Some? && Irreversible(m.active.value.stage) ==> m.active.value.irreversible)
    && (m.broken == {} || m.live == {} || (m.active.Some? && m.broken == {m.active.value.id}))
    && forall id :: id in m.calls ==>
         && (m.calls[id].Activated? || m.calls[id].PausedFor? ==> m.broken == {})
         && (m.calls[id].StageSet? || m.calls[id].StageRead? ==> !m.calls[id].stage.Inactive?)
  }

  lemma InHandForgetsNothing(m: Machine, e: Event)
    requires Consistent(m) && InHand(m) && Enabled(m, e) && Disciplined(m, e)
    ensures !Forgets(m, e)
  {
    if e.Advance? { assert CallOk(m, e.id); }
  }

  lemma DisciplinedStep(m: Machine, e: Event)
    requires Consistent(m) && InHand(m) && Enabled(m, e) && Disciplined(m, e)
    ensures InHand(Step(m, e))
  {
    SerialStep(m, e);
    StepHarmsExactly(m, e);
    if e.Advance? { assert CallOk(m, e.id); }
  }

  lemma {:induction false} DisciplinedFrom(m: Machine, events: seq<Event>)
    requires Consistent(m) && InHand(m) && Possible(m, events) && DisciplinedRun(m, events)
    ensures NeverForgets(m, events)
    decreases |events|
  {
    if events != [] {
      StepConsistent(m, events[0]);
      InHandForgetsNothing(m, events[0]);
      DisciplinedStep(m, events[0]);
      DisciplinedFrom(Step(m, events[0]), events[1..]);
    }
  }

  /** Run that way, over any number of crashes and restarts, a half-replaced profile is always remembered. */
  lemma DisciplinedRunsRemember(events: seq<Event>)
    requires Possible(START, events) && DisciplinedRun(START, events)
    ensures AlwaysRemembered(START, events)
  {
    DisciplinedFrom(START, events);
    RememberedExactly(events);
  }

  // ------------------------------------------------------------ how each goes wrong

  lemma FirstStep(m: Machine, e: Event, rest: seq<Event>)
    requires Enabled(m, e) && Possible(Step(m, e), rest)
    ensures Possible(m, [e] + rest) && After(m, [e] + rest) == After(Step(m, e), rest)
  {
    assert ([e] + rest)[1..] == rest;
  }

  lemma TwoSteps(m: Machine, e: Event, f: Event)
    requires Enabled(m, e) && Enabled(Step(m, e), f)
    ensures Possible(m, [e, f]) && After(m, [e, f]) == Step(Step(m, e), f)
  {
    var rest: seq<Event> := [];
    FirstStep(Step(m, e), f, rest);
    assert [f] + rest == [f];
    FirstStep(m, e, [f]);
    assert [e] + [f] == [e, f];
  }

  function BeginOf(b: nat): seq<Event> { [Begin(b), Advance(b), Advance(b)] }

  /** A begin that is not disturbed. */
  lemma BeginAlone(m: Machine, b: nat) returns (m': Machine)
    requires Consistent(m) && m.active.None? && b !in m.used
    ensures Possible(m, BeginOf(b)) && m' == After(m, BeginOf(b)) && Consistent(m') && b !in m.calls
    ensures m' == m.(active := Some(Operation(b, Preparing, false)), paused := true, live := m.live + {b},
                     used := m.used + {b}, disk := Some(Journal(b, StageName(Preparing), false, 0)))
  {
    assert m.calls.Keys <= m.live by { forall id | id in m.calls ensures id in m.live { assert CallOk(m, id); } }
    var m1 := Step(m, Begin(b));
    var m2 := Step(m1, Advance(b));
    m' := Step(m2, Advance(b));
    assert m'.calls == m.calls;
    TwoSteps(m1, Advance(b), Advance(b));
    FirstStep(m, Begin(b), [Advance(b), Advance(b)]);
    assert BeginOf(b) == [Begin(b)] + [Advance(b), Advance(b)];
    StepConsistent(m, Begin(b));
    StepConsistent(m1, Advance(b));
    StepConsistent(m2, Advance(b));
  }

  /** Whenever a clear has given up its operation and not yet resumed work, a whole begin can run before
      it does: the new operation is then active and journaled, with work not paused. */
  lemma OverlappingClearUnpauses(m: Machine, a: nat, b: nat) returns (begun: Machine, m': Machine)
    requires Consistent(m) && m.active.None? && a in m.calls && m.calls[a].Deactivated? && b !in m.used
    ensures Possible(m, BeginOf(b)) && begun == After(m, BeginOf(b))
    ensures Enabled(begun, Advance(a)) && m' == Step(begun, Advance(a))
    ensures m'.active == Some(Operation(b, Preparing, false)) && Mirrors(m'.disk, m'.active.value) && !m'.paused
  {
    begun := BeginAlone(m, b);
    m' := Step(begun, Advance(a));
  }

  /** Whenever a clear is about to remove its journal, a whole begin can run before it does: the clear
      then removes the new operation's journal. If that operation goes on to swap, no stage of it is
      journaled and a crash restarts as if nothing had happened. */
  lemma OverlappingClearLosesTheJournal(m: Machine, a: nat, b: nat) returns (begun: Machine, m': Machine)
    requires Consistent(m) && m.active.None? && a in m.calls && m.calls[a].JournalMatched? && b !in m.used
    ensures Possible(m, BeginOf(b)) && begun == After(m, BeginOf(b))
    ensures var rest := [Advance(a), SetStage(b, Swapping)] + [Advance(b), SwapProfile(b)];
            Possible(begun, rest) && m' == After(begun, rest)
    ensures b in m'.broken && m'.disk == None && !Restarted(m').recovery && !Restarted(m').paused
  {
    begun := BeginAlone(m, b);
    var m1 := Step(begun, Advance(a));
    var m2 := Step(m1, SetStage(b, Swapping));
    var m3 := Step(m2, Advance(b));
    m' := Step(m3, SwapProfile(b));
    TwoSteps(m2, Advance(b), SwapProfile(b));
    var rest := [Advance(b), SwapProfile(b)];
    FirstStep(m1, SetStage(b, Swapping), rest);
    FirstStep(begun, Advance(a), [SetStage(b, Swapping)] + rest);
    assert [Advance(a), SetStage(b, Swapping)] + rest == [Advance(a)] + ([SetStage(b, Swapping)] + rest);
  }

  /** One caller at a time is enough to forget a half-replaced profile: the restore that Recovery is for
      overwrites the irreversible journal with its own. If it then crashes before its own swap, startup
      clears the journal and starts as usual. */
  lemma RestoreOverRecoveryForgets(m: Machine, a: nat, b: nat)
    requires Consistent(m) && m.active.None? && a in m.broken && b !in m.used
    ensures Possible(m, BeginOf(b))
    ensures var m' := Restarted(After(m, BeginOf(b)));
            a in m'.broken && m'.disk == None && !m'.recovery && !m'.paused
  {
    var begun := BeginAlone(m, b);
  }

  /** No crash is needed either: if that restore fails before its swap, its clear removes the journal and
      resumes work. */
  lemma FailedRestoreForgets(m: Machine, a: nat, b: nat) returns (begun: Machine, m': Machine)
    requires Consistent(m) && m.active.None? && m.calls == map[] && a in m.broken && b !in m.used
    ensures Possible(m, BeginOf(b)) && begun == After(m, BeginOf(b))
    ensures var rest := [Clear(b), Advance(b)] + [Advance(b), Advance(b)];
            Possible(begun, rest) && m' == After(begun, rest)
    ensures a in m'.broken && m'.disk == None && !m'.paused && m'.active.None? && m'.calls == map[]
  {
    begun := BeginAlone(m, b);
    var m1 := Step(begun, Clear(b));
    var m2 := Step(m1, Advance(b));
    var m3 := Step(m2, Advance(b));
    m' := Step(m3, Advance(b));
    assert m'.calls == map[];
    TwoSteps(m2, Advance(b), Advance(b));
    var rest := [Advance(b), Advance(b)];
    FirstStep(m1, Advance(b), rest);
    FirstStep(begun, Clear(b), [Advance(b)] + rest);
    assert [Clear(b), Advance(b)] + rest == [Clear(b)] + ([Advance(b)] + rest);
  }

  ghost predicate Reachable(m: Machine) { exists events :: Possible(START, events) && After(START, events) == m }

  lemma {:induction false} LastStep(m: Machine, events: seq<Event>, e: Event)
    requires Possible(m, events) && Enabled(After(m, events), e)
    ensures Possible(m, events + [e]) && After(m, events + [e]) == Step(After(m, events), e)
    decreases |events|
  {
    if events == [] {
      FirstStep(m, e, []);
      assert events + [e] == [e] + [];
    } else {
      LastStep(Step(m, events[0]), events[1..], e);
      assert (events + [e])[1..] == events[1..] + [e];
    }
  }

  lemma StepReachable(m: Machine, e: Event)
    requires Reachable(m) && Enabled(m, e)
    ensures Reachable(Step(m, e))
  {
    var events :| Possible(START, events) && After(START, events) == m;
    LastStep(START, events, e);
  }

  lemma BeginReachable(a: nat) returns (begun: Machine)
    ensures Reachable(begun)
    ensures begun == Machine(Some(Operation(a, Preparing, false)), true, Some(Journal(a, StageName(Preparing), false, 0)),
                             map[], {a}, {a}, {}, false)
  {
    begun := BeginAlone(START, a);
  }

  lemma {:induction false} ConsistentFrom(m: Machine, events: seq<Event>)
    requires Consistent(m) && Possible(m, events)
    ensures Consistent(After(m, events))
    decreases |events|
  {
    if events != [] {
      StepConsistent(m, events[0]);
      ConsistentFrom(Step(m, events[0]), events[1..]);
    }
  }

  lemma ReachableConsistent(m: Machine)
    requires Reachable(m)
    ensures Consistent(m)
  {
    var events :| Possible(START, events) && After(START, events) == m;
    ConsistentFrom(START, events);
  }

  /** The states the failures start from occur: a clear that has not resumed work, one about to remove its
      journal, and a life after a crash in the middle of a swap. */
  lemma ClearingIsReached(a: nat) returns (clearing: Machine, removing: Machine)
    ensures Reachable(clearing) && clearing.active.None? && a in clearing.calls && clearing.calls[a].Deactivated?
    ensures Reachable(removing) && removing.active.None? && a in removing.calls && removing.calls[a].JournalMatched?
    ensures Consistent(clearing) && Consistent(removing) && clearing.used == removing.used == {a}
  {
    var begun := BeginReachable(a);
    clearing := Step(begun, Clear(a));
    StepReachable(begun, Clear(a));
    var resumed := Step(clearing, Advance(a));
    StepReachable(clearing, Advance(a));
    removing := Step(resumed, Advance(a));
    StepReachable(resumed, Advance(a));
    ReachableConsistent(clearing);
    ReachableConsistent(removing);
  }

  lemma SwapReachable(a: nat) returns (swapped: Machine)
    ensures Reachable(swapped) && Remembers(swapped.disk, a) && a in swapped.broken && swapped.used == {a}
  {
    var begun := BeginReachable(a);
    var set1 := Step(begun, SetStage(a, Swapping));
    StepReachable(begun, SetStage(a, Swapping));
    var set2 := Step(set1, Advance(a));
    StepReachable(set1, Advance(a));
    var journaled := Step(set2, Advance(a));
    StepReachable(set2, Advance(a));
    swapped := Step(journaled, SwapProfile(a));
    StepReachable(journaled, SwapProfile(a));
  }

  lemma RecoveringIsReached(a: nat) returns (recovering: Machine)
    ensures Reachable(recovering) && recovering.active.None? && recovering.calls == map[] && a in recovering.broken
    ensures recovering.recovery && recovering.paused && Remembers(recovering.disk, a) && recovering.used == {a}
    ensures Consistent(recovering)
  {
    var swapped := SwapReachable(a);
    recovering := Step(swapped, CrashAndRestart);
    StepReachable(swapped, CrashAndRestart);
    ReachableConsistent(recovering);
  }
}

/** Preview-first commits of the appearance settings (`applyWorkspaceWallpaper` and
    `commitInterfaceTransparency` in src/stores/app-store.ts): overlapping calls, replies in any order. */
module AppearanceCommits {
  import opened Common

  /** The module-level variables of one setting and the value on screen. */
  datatype Core<V> = Core(commitGen: nat, committedGen: nat, committed: V, ui: V, inFlight: Option<V>)

  /** The start of a commit. `coalesce` is the transparency setting, which drops a commit of the
      committed value and joins one of the value now in flight. The flag tells whether a call goes out. */
  function Begin<V(==)>(c: Core<V>, value: V, coalesce: bool): (Core<V>, bool) {
    if coalesce && (value == c.committed || c.inFlight == Some(value)) then (c.(ui := value), false)
    else (c.(commitGen := c.commitGen + 1, ui := value, inFlight := if coalesce then Some(value) else c.inFlight), true)
  }

  function Done<V(==)>(c: Core<V>, value: V): Core<V> {
    if c.inFlight == Some(value) then c.(inFlight := None) else c
  }

  function OnSaved<V(==)>(c: Core<V>, gen: nat, value: V, saved: V): Core<V> {
    var c := if gen >= c.committedGen then c.(committedGen := gen, committed := saved) else c;
    Done(if gen == c.commitGen then c.(ui := saved) else c, value)
  }

  function OnFailed<V(==)>(c: Core<V>, gen: nat, value: V): Core<V> {
    Done(if gen == c.commitGen then c.(ui := c.committed) else c, value)
  }

  class AppearanceCommit<V(==)> {
    var commitGen: nat
    var committedGen: nat
    var committed: V
    var ui: V
    var inFlight: Option<V>

    ghost function View(): Core<V>
      reads this
    {
      Core(commitGen, committedGen, committed, ui, inFlight)
    }

    constructor (initial: V)
      ensures View() == Core(0, 0, initial, initial, None)
    {
      commitGen, committedGen, committed, ui, inFlight := 0, 0, initial, initial, None;
    }

    /** `commitInterfaceTransparency` up to its request; `None` when no request is made. */
    method BeginTransparency(next: V) returns (gen: Option<nat>)
      modifies this
      ensures var (after, sent) := Begin(old(View()), next, true);
              View() == after && gen == if sent then Some(commitGen) else None
    {
      if next == committed {
        ui := next;
        return None;
      }
      if inFlight == Some(next) {
        ui := next;
        return None;
      }
      commitGen := commitGen + 1;
      ui := next;
      inFlight := Some(next);
      gen := Some(commitGen);
    }

    /** `applyWorkspaceWallpaper` up to its request. */
    method BeginWallpaper(preview: V) returns (gen: nat)
      modifies this
      ensures View() == Begin(old(View()), preview, false).0 && gen == commitGen
    {
      commitGen := commitGen + 1;
      gen := commitGen;
      ui := preview;
    }

    method RequestSucceeded(gen: nat, next: V, saved: V)
      modifies this
      ensures View() == OnSaved(old(View()), gen, next, saved)
    {
      if gen >= committedGen {
        committedGen := gen;
        committed := saved;
      }
      if gen == commitGen {
        ui := saved;
      }
      if inFlight == Some(next) {
        inFlight := None;
      }
    }

    method RequestFailed(gen: nat, next: V)
      modifies this
      ensures View() == OnFailed(old(View()), gen, next)
    {
      if gen == commitGen {
        ui := committed;
      }
      if inFlight == Some(next) {
        inFlight := None;
      }
    }
  }

  // ------------------------------------------------------------ overlapping calls

  datatype Call<V> = Sent(value: V) | Landed(value: V, saved: V) | Succeeded(value: V, saved: V) | Failed(value: V)

  /** Call `g` of the protocol is `calls[g - 1]`. `repaintDue` is history: since the newest call
      reported, something else painted the screen or the committed value moved under it. */
  datatype System<V> = System(core: Core<V>, calls: seq<Call<V>>, stored: V, initial: V, repaintDue: bool)

  datatype Event<V> =
    | Commit(value: V, coalesce: bool)
    | Preview(value: V)
    | Revert
    | Lands(gen: nat, saved: V)     // the server stores what it makes of the request
    | Reports(gen: nat)             // a landed request reports success
    | Fails(gen: nat)

  predicate Enabled<V>(s: System<V>, e: Event<V>) {
    match e
    case Lands(g, _) => 1 <= g <= |s.calls| && s.calls[g - 1].Sent?
    case Reports(g) => 1 <= g <= |s.calls| && s.calls[g - 1].Landed?
    case Fails(g) => 1 <= g <= |s.calls| && (s.calls[g - 1].Sent? || s.calls[g - 1].Landed?)
    case _ => true
  }

  function Step<V(==)>(s: System<V>, e: Event<V>): System<V>
    requires Enabled(s, e)
  {
    match e
    case Commit(value, coalesce) =>
      var (core, sent) := Begin(s.core, value, coalesce);
      if sent then s.(core := core, calls := s.calls + [Sent(value)])
      else s.(core := core, repaintDue := s.repaintDue && value != core.committed)
    case Preview(value) => s.(core := s.core.(ui := value), repaintDue := true)
    case Revert => s.(core := s.core.(ui := s.core.committed), repaintDue := false)
    case Lands(g, saved) => s.(calls := s.calls[g - 1 := Landed(s.calls[g - 1].value, saved)], stored := saved)
    case Reports(g) =>
      var call := s.calls[g - 1];
      s.(core := OnSaved(s.core, g, call.value, call.saved),
         calls := s.calls[g - 1 := Succeeded(call.value, call.saved)],
         repaintDue := g != s.core.commitGen && (s.repaintDue || g >= s.core.committedGen))
    case Fails(g) =>
      s.(core := OnFailed(s.core, g, s.calls[g - 1].value),
         calls := s.calls[g - 1 := Failed(s.calls[g - 1].value)],
         repaintDue := g != s.core.commitGen && s.repaintDue)
  }

  function Start<V>(initial: V): System<V> {
    System(Core(0, 0, initial, initial, None), [], initial, initial, false)
  }

  ghost predicate Leads<V(!new)>(s: System<V>, events: seq<Event<V>>, s': System<V>)
    decreases |events|
  {
    if events == [] then s' == s
    else Enabled(s, events[0]) && Leads(Step(s, events[0]), events[1..], s')
  }

  predicate Reported<V>(call: Call<V>) { call.Succeeded? || call.Failed? }

  predicate Quiet<V>(s: System<V>) { forall i | 0 <= i < |s.calls| :: Reported(s.calls[i]) }

  /** `committed` is what the newest successful call saved, or the initial value. */
  ghost predicate CommittedIsNewestSuccess<V>(s: System<V>) {
    var c := s.core;
    && c.commitGen == |s.calls| && c.committedGen <= |s.calls|
    && (if c.committedGen == 0 then c.committed == s.initial
        else s.calls[c.committedGen - 1].Succeeded? && s.calls[c.committedGen - 1].saved == c.committed)
    && (forall i | c.committedGen <= i < |s.calls| :: !s.calls[i].Succeeded?)
  }

  ghost predicate PaintedWhenNewestReported<V>(s: System<V>) {
    (s.calls == [] || Reported(s.calls[|s.calls| - 1])) && !s.repaintDue ==> s.core.ui == s.core.committed
  }

  ghost predicate Valid<V>(s: System<V>) {
    && CommittedIsNewestSuccess(s) && PaintedWhenNewestReported(s)
  }

  predicate UsesOneSetting<V>(e: Event<V>, coalesce: bool) { e.Commit? ==> e.coalesce == coalesce }

  /** What the in-flight slot holds: for transparency, the newest call's value while it is out. */
  ghost predicate SlotOk<V>(s: System<V>, coalesce: bool) {
    s.core.inFlight.Some? ==>
      coalesce && s.calls != [] && !Reported(s.calls[|s.calls| - 1]) && s.calls[|s.calls| - 1].value == s.core.inFlight.value
  }

  lemma ValidStep<V(!new)>(s: System<V>, e: Event<V>, coalesce: bool)
    requires Valid(s) && SlotOk(s, coalesce) && Enabled(s, e) && UsesOneSetting(e, coalesce)
    ensures Valid(Step(s, e)) && SlotOk(Step(s, e), coalesce)
  {
  }

  predicate OneSetting<V(!new)>(events: seq<Event<V>>, coalesce: bool) {
    forall i | 0 <= i < |events| :: UsesOneSetting(events[i], coalesce)
  }

  lemma {:induction false} ValidRun<V(!new)>(s: System<V>, events: seq<Event<V>>, s': System<V>, coalesce: bool)
    requires Valid(s) && SlotOk(s, coalesce) && Leads(s, events, s') && OneSetting(events, coalesce)
    ensures Valid(s') && SlotOk(s', coalesce)
    decreases |events|
  {
    if events != [] {
      assert UsesOneSetting(events[0], coalesce);
      ValidStep(s, events[0], coalesce);
      ValidRun(Step(s, events[0]), events[1..], s', coalesce);
    }
  }

  /** In every run, replies in any order: `committed` is what the newest successful call saved. */
  lemma CommittedTracksNewestSuccess<V(!new)>(initial: V, events: seq<Event<V>>, s: System<V>, coalesce: bool, g: nat)
    requires Leads(Start(initial), events, s) && OneSetting(events, coalesce)
    requires 1 <= g <= |s.calls| && s.calls[g - 1].Succeeded?
    ensures g <= s.core.committedGen <= |s.calls|
    ensures s.calls[s.core.committedGen - 1].Succeeded? && s.core.committed == s.calls[s.core.committedGen - 1].saved
  {
    ValidRun(Start(initial), events, s, coalesce);
  }

  // Landing in issue order

  predicate HasLanded<V>(call: Call<V>) { call.Landed? || call.Succeeded? }

  /** No write lands after a newer one has, and a call that fails has stored nothing. */
  predicate InOrder<V>(s: System<V>, e: Event<V>)
    requires Enabled(s, e)
  {
    match e
    case Lands(g, _) => forall i | g <= i < |s.calls| :: !HasLanded(s.calls[i])
    case Fails(g) => s.calls[g - 1].Sent?
    case _ => true
  }

  ghost predicate LeadsInOrder<V(!new)>(s: System<V>, events: seq<Event<V>>, s': System<V>)
    decreases |events|
  {
    if events == [] then s' == s
    else Enabled(s, events[0]) && InOrder(s, events[0]) && LeadsInOrder(Step(s, events[0]), events[1..], s')
  }

  /** The server holds what the newest landed call made it store. */
  ghost predicate StoredIsNewestLanded<V>(s: System<V>) {
    || (s.stored == s.initial && forall i | 0 <= i < |s.calls| :: !HasLanded(s.calls[i]))
    || (exists i | 0 <= i < |s.calls| ::
          && HasLanded(s.calls[i]) && s.calls[i].saved == s.stored
          && forall j | i < j < |s.calls| :: !HasLanded(s.calls[j]))
  }

  lemma StoredStep<V(!new)>(s: System<V>, e: Event<V>)
    requires StoredIsNewestLanded(s) && Enabled(s, e) && InOrder(s, e)
    ensures StoredIsNewestLanded(Step(s, e))
  {
    var s' := Step(s, e);
    if e.Lands? {
      assert HasLanded(s'.calls[e.gen - 1]);
    } else if i :| 0 <= i < |s.calls| && HasLanded(s.calls[i]) && s.calls[i].saved == s.stored
                   && forall j | i < j < |s.calls| :: !HasLanded(s.calls[j]) {
      assert HasLanded(s'.calls[i]);
    }
  }

  lemma {:induction false} StoredRun<V(!new)>(s: System<V>, events: seq<Event<V>>, s': System<V>)
    requires StoredIsNewestLanded(s) && LeadsInOrder(s, events, s')
    ensures StoredIsNewestLanded(s') && Leads(s, events, s')
    decreases |events|
  {
    if events != [] {
      StoredStep(s, events[0]);
      StoredRun(Step(s, events[0]), events[1..], s');
    }
  }

  /** If writes land in issue order, then once no call is outstanding the committed value is the
      stored one. */
  lemma QuietMeansStored<V(!new)>(initial: V, events: seq<Event<V>>, s: System<V>, coalesce: bool)
    requires LeadsInOrder(Start(initial), events, s) && OneSetting(events, coalesce) && Quiet(s)
    ensures s.core.committed == s.stored
  {
    StoredRun(Start(initial), events, s);
    ValidRun(Start(initial), events, s, coalesce);
    assert forall i | 0 <= i < |s.calls| :: Reported(s.calls[i]);
  }

  // What the screen shows

  predicate ReportsNewest<V>(s: System<V>, e: Event<V>) {
    (e.Reports? || e.Fails?) && e.gen == |s.calls|
  }

  lemma {:induction false} StaysPainted<V(!new)>(s: System<V>, events: seq<Event<V>>, s': System<V>, coalesce: bool)
    requires Valid(s) && SlotOk(s, coalesce) && Leads(s, events, s') && OneSetting(events, coalesce)
    requires s.calls != [] && Reported(s.calls[|s.calls| - 1]) && !s.repaintDue
    requires |s'.calls| <= |s.calls|
    requires forall i | 0 <= i < |events| :: !events[i].Preview?
    requires s.calls[|s.calls| - 1].Succeeded? || forall i | 0 <= i < |events| :: !events[i].Reports?
    ensures |s'.calls| == |s.calls| && s'.core.ui == s'.core.committed
    decreases |events|
  {
    if events != [] {
      var next := Step(s, events[0]);
      assert UsesOneSetting(events[0], coalesce) && !events[0].Preview?;
      ValidStep(s, events[0], coalesce);
      CallsOnlyGrow(next, events[1..], s');
      if !s.calls[|s.calls| - 1].Succeeded? { assert !events[0].Reports?; }
      StaysPainted(next, events[1..], s', coalesce);
    }
  }

  lemma {:induction false} CallsOnlyGrow<V(!new)>(s: System<V>, events: seq<Event<V>>, s': System<V>)
    requires Leads(s, events, s')
    ensures |s.calls| <= |s'.calls|
    decreases |events|
  {
    if events != [] { CallsOnlyGrow(Step(s, events[0]), events[1..], s'); }
  }

  /** The screen shows the committed value when the newest call succeeded, or was the last to report
      success or failure, and no preview followed. `events` is what happened after it reported. */
  lemma ScreenShowsCommitted<V(!new)>(initial: V, before: seq<Event<V>>, s: System<V>, e: Event<V>,
                                      events: seq<Event<V>>, s': System<V>, coalesce: bool)
    requires Leads(Start(initial), before, s) && Enabled(s, e) && ReportsNewest(s, e) && Leads(Step(s, e), events, s')
    requires OneSetting(before, coalesce) && OneSetting(events, coalesce)
    requires |s'.calls| == |s.calls|
    requires forall i | 0 <= i < |events| :: !events[i].Preview?
    requires e.Reports? || forall i | 0 <= i < |events| :: !events[i].Reports?
    ensures s'.core.ui == s'.core.committed
  {
    ValidRun(Start(initial), before, s, coalesce);
    ValidStep(s, e, coalesce);
    StaysPainted(Step(s, e), events, s', coalesce);
  }

  predicate IsReply<V>(e: Event<V>) { e.Lands? || e.Reports? || e.Fails? }

  ghost predicate OnlyReplies<V(!new)>(events: seq<Event<V>>) { forall i | 0 <= i < |events| :: IsReply(events[i]) }

  predicate Painted<V(==)>(s: System<V>) { s.core.ui == s.core.committed }

  /** The success of an older call moves the committed value under the screen. */
  predicate MovesUnder<V(==)>(s: System<V>, e: Event<V>)
    requires Enabled(s, e)
  {
    e.Reports? && s.core.committedGen <= e.gen && s.calls[e.gen - 1].saved != s.core.committed
  }

  ghost predicate AlwaysPainted<V(!new)>(s: System<V>, events: seq<Event<V>>, s': System<V>)
    requires Leads(s, events, s')
    decreases |events|
  {
    Painted(s) && (events == [] || AlwaysPainted(Step(s, events[0]), events[1..], s'))
  }

  ghost predicate NeverMovesUnder<V(!new)>(s: System<V>, events: seq<Event<V>>, s': System<V>)
    requires Leads(s, events, s')
    decreases |events|
  {
    events == [] || (!MovesUnder(s, events[0]) && NeverMovesUnder(Step(s, events[0]), events[1..], s'))
  }

  /** The newest call has reported and the screen shows the committed value. */
  ghost predicate Settled<V>(s: System<V>) {
    Valid(s) && s.calls != [] && Reported(s.calls[|s.calls| - 1]) && Painted(s)
  }

  /** A reply to an older call leaves the screen alone and keeps it right exactly unless it moves the
      committed value. */
  lemma ReplyKeepsScreenExactly<V(!new)>(s: System<V>, e: Event<V>, coalesce: bool)
    requires Settled(s) && SlotOk(s, coalesce) && Enabled(s, e) && IsReply(e)
    ensures var s' := Step(s, e);
            && s'.core.ui == s.core.ui && (Painted(s') <==> !MovesUnder(s, e))
            && Valid(s') && SlotOk(s', coalesce) && |s'.calls| == |s.calls| && Reported(s'.calls[|s.calls| - 1])
            && (s'.core.committed == s.core.committed <==> !MovesUnder(s, e))
  {
    ValidStep(s, e, coalesce);
  }

  lemma {:induction false} RepliesKeepScreen<V(!new)>(s: System<V>, events: seq<Event<V>>, s': System<V>, coalesce: bool)
    requires Settled(s) && SlotOk(s, coalesce) && Leads(s, events, s') && OnlyReplies(events)
    ensures AlwaysPainted(s, events, s') <==> NeverMovesUnder(s, events, s')
    decreases |events|
  {
    if events != [] {
      var next := Step(s, events[0]);
      assert IsReply(events[0]);
      ReplyKeepsScreenExactly(s, events[0], coalesce);
      if Painted(next) { RepliesKeepScreen(next, events[1..], s', coalesce); }
    }
  }

  /** Once the newest call has reported, replies leave the screen as it is. */
  lemma {:induction false} RepliesLeaveScreen<V(!new)>(s: System<V>, events: seq<Event<V>>, s': System<V>, coalesce: bool)
    requires Valid(s) && SlotOk(s, coalesce) && s.calls != [] && Reported(s.calls[|s.calls| - 1])
    requires Leads(s, events, s') && OnlyReplies(events)
    ensures s'.core.ui == s.core.ui && Valid(s') && s.core.committedGen <= s'.core.committedGen
    ensures s'.core.committedGen == s.core.committedGen ==> s'.core.committed == s.core.committed
    decreases |events|
  {
    if events != [] {
      var next := Step(s, events[0]);
      assert IsReply(events[0]);
      ValidStep(s, events[0], coalesce);
      assert events[0].Reports? ==> events[0].gen != s.core.committedGen;
      RepliesLeaveScreen(next, events[1..], s', coalesce);
    }
  }

  /** When the newest call has reported, nothing else painted since, and only replies follow: the screen
      shows the committed value throughout exactly when each success that comes in is of a call older than
      the committed one or saved the committed value; and it shows it at the end exactly when the newest
      success of all saved what was committed at the start. */
  lemma RepliesKeepScreenExactly<V(!new)>(initial: V, before: seq<Event<V>>, s: System<V>, events: seq<Event<V>>,
                                          s': System<V>, coalesce: bool)
    requires Leads(Start(initial), before, s) && OneSetting(before, coalesce)
    requires s.calls != [] && Reported(s.calls[|s.calls| - 1]) && !s.repaintDue
    requires Leads(s, events, s') && OnlyReplies(events)
    ensures AlwaysPainted(s, events, s') <==> NeverMovesUnder(s, events, s')
    ensures s.core.committedGen <= s'.core.committedGen <= |s'.calls|
    ensures Painted(s') <==> s'.core.committedGen == s.core.committedGen
                             || s'.calls[s'.core.committedGen - 1] == Succeeded(s'.calls[s'.core.committedGen - 1].value, s.core.committed)
  {
    ValidRun(Start(initial), before, s, coalesce);
    RepliesKeepScreen(s, events, s', coalesce);
    RepliesLeaveScreen(s, events, s', coalesce);
  }

  /** It happens, with writes landing in issue order: two overlapping calls, the newer fails, then the
      older succeeds. Nothing is outstanding, `b` is stored and committed, and the screen still shows `a`. */
  lemma OlderSuccessAfterNewestFailure<V(!new)>(a: V, b: V, c: V, coalesce: bool) returns (events: seq<Event<V>>, s: System<V>)
    requires a != b && a != c && b != c
    ensures LeadsInOrder(Start(a), events, s) && OneSetting(events, coalesce) && Quiet(s)
    ensures s.stored == s.core.committed == b && s.core.ui == a
  {
    events := [Commit(b, coalesce), Commit(c, coalesce), Fails(2), Lands(1, b), Reports(1)];
    var s1 := Step(Start(a), events[0]);
    var s2 := Step(s1, events[1]);
    var s3 := Step(s2, events[2]);
    var s4 := Step(s3, events[3]);
    s := Step(s4, events[4]);
    assert LeadsInOrder(s4, events[4..], s);
    assert LeadsInOrder(s3, events[3..], s);
    assert LeadsInOrder(s2, events[2..], s);
    assert LeadsInOrder(s1, events[1..], s);
  }

  // ------------------------------------------------------------ preview first

  /** The chosen value is on screen before any request is made, whether one is made or not. */
  lemma CommitPaintsAtOnce<V(!new)>(s: System<V>, value: V, coalesce: bool)
    ensures Step(s, Commit(value, coalesce)).core.ui == value
  {
  }

  /** A preview paints its value and a revert the committed one; neither asks for anything. */
  lemma PreviewOnlyPaints<V(!new)>(s: System<V>, value: V)
    ensures var shown, back := Step(s, Preview(value)), Step(s, Revert);
            && shown.core == s.core.(ui := value) && shown.calls == s.calls && shown.stored == s.stored
            && back.core == s.core.(ui := s.core.committed) && back.calls == s.calls && back.stored == s.stored
  {
  }

  lemma {:induction false} StaysChosen<V(!new)>(s: System<V>, events: seq<Event<V>>, s': System<V>, coalesce: bool)
    requires Valid(s) && SlotOk(s, coalesce) && Leads(s, events, s') && OnlyReplies(events)
    requires s'.calls != [] && !Reported(s'.calls[|s'.calls| - 1])
    ensures s'.core.ui == s.core.ui && |s'.calls| == |s.calls| && !Reported(s.calls[|s.calls| - 1])
    decreases |events|
  {
    if events != [] {
      var next := Step(s, events[0]);
      assert IsReply(events[0]);
      ValidStep(s, events[0], coalesce);
      StaysChosen(next, events[1..], s', coalesce);
    }
  }

  /** While the newest call is out and nothing else has painted since, the screen shows the value chosen
      last, whatever the older calls report. */
  lemma ScreenShowsTheChoice<V(!new)>(initial: V, before: seq<Event<V>>, s: System<V>, value: V,
                                      events: seq<Event<V>>, s': System<V>, coalesce: bool)
    requires Leads(Start(initial), before, s) && OneSetting(before, coalesce)
    requires Leads(Step(s, Commit(value, coalesce)), events, s') && OnlyReplies(events)
    requires s'.calls != [] && !Reported(s'.calls[|s'.calls| - 1])
    ensures s'.core.ui == value
  {
    ValidRun(Start(initial), before, s, coalesce);
    ValidStep(s, Commit(value, coalesce), coalesce);
    CommitPaintsAtOnce(s, value, coalesce);
    StaysChosen(Step(s, Commit(value, coalesce)), events, s', coalesce);
  }

  /** The newest call has not reported and is for the value. */
  predicate OutFor<V(==)>(s: System<V>, value: V) {
    s.calls != [] && !Reported(s.calls[|s.calls| - 1]) && s.calls[|s.calls| - 1].value == value
  }

  /** When a request goes out. A wallpaper is always sent. A transparency value is sent if it is not the
      committed one and the newest call is not out for it, it is not sent if it is the committed one, and
      sending it twice in a row makes one request. */
  lemma RequestsAreCoalesced<V(!new)>(initial: V, before: seq<Event<V>>, s: System<V>, value: V, coalesce: bool)
    requires Leads(Start(initial), before, s) && OneSetting(before, coalesce)
    ensures var once := Step(s, Commit(value, coalesce));
            && (once.calls == s.calls || once.calls == s.calls + [Sent(value)])
            && (!coalesce ==> once.calls == s.calls + [Sent(value)])
            && (coalesce && value == s.core.committed ==> once.calls == s.calls)
            && (value != s.core.committed && !OutFor(s, value) ==> once.calls == s.calls + [Sent(value)])
            && (coalesce ==> Step(once, Commit(value, coalesce)).calls == once.calls)
  {
    ValidRun(Start(initial), before, s, coalesce);
  }

  /** Only replies come in, and none of a call for this value. */
  ghost predicate LeadsByOthers<V(!new)>(s: System<V>, events: seq<Event<V>>, s': System<V>, value: V)
    decreases |events|
  {
    if events == [] then s' == s
    else
      && Enabled(s, events[0]) && IsReply(events[0])
      && (events[0].Lands? || s.calls[events[0].gen - 1].value != value)
      && LeadsByOthers(Step(s, events[0]), events[1..], s', value)
  }

  lemma {:induction false} StaysOnItsWay<V(!new)>(s: System<V>, events: seq<Event<V>>, s': System<V>, value: V)
    requires LeadsByOthers(s, events, s', value) && s.core.inFlight == Some(value)
    ensures s'.core.inFlight == Some(value)
    decreases |events|
  {
    if events != [] { StaysOnItsWay(Step(s, events[0]), events[1..], s', value); }
  }

  /** A transparency value on its way is not asked for again, whatever calls for other values report in
      between. */
  lemma OnItsWayIsNotAskedAgain<V(!new)>(s: System<V>, value: V, events: seq<Event<V>>, s': System<V>)
    requires value != s.core.committed && LeadsByOthers(Step(s, Commit(value, true)), events, s', value)
    ensures Step(s', Commit(value, true)).calls == s'.calls
  {
    StaysOnItsWay(Step(s, Commit(value, true)), events, s', value);
  }

  // ------------------------------------------------------------ the last choice

  /** The server stores what it is asked to. */
  predicate Honest<V(==)>(call: Call<V>) { HasLanded(call) ==> call.saved == call.value }

  ghost predicate AllHonest<V(!new)>(s: System<V>) { forall i | 0 <= i < |s.calls| :: Honest(s.calls[i]) }

  /** No later call than `i` has been sent that has not failed. */
  predicate NewestUnfailed<V>(calls: seq<Call<V>>, i: int) {
    0 <= i < |calls| && !calls[i].Failed? && forall j | i < j < |calls| :: calls[j].Failed?
  }

  /** What replies that are not failures keep of the calls. */
  ghost predicate SameRequests<V(!new)>(calls: seq<Call<V>>, calls': seq<Call<V>>) {
    && |calls'| == |calls|
    && forall i | 0 <= i < |calls| :: calls'[i].value == calls[i].value && (calls'[i].Failed? <==> calls[i].Failed?)
  }

  lemma {:induction false} RequestsKept<V(!new)>(s: System<V>, events: seq<Event<V>>, s': System<V>)
    requires Leads(s, events, s') && OnlyReplies(events) && forall i | 0 <= i < |events| :: !events[i].Fails?
    ensures SameRequests(s.calls, s'.calls) && s'.initial == s.initial
    decreases |events|
  {
    if events != [] {
      assert IsReply(events[0]) && !events[0].Fails?;
      RequestsKept(Step(s, events[0]), events[1..], s');
    }
  }

  /** A commit of `value` is dropped although an unfailed call newer than the committed one, and for
      another value, is still to come back. */
  ghost predicate DroppedUnder<V>(s: System<V>, value: V) {
    && value == s.core.committed
    && exists i :: s.core.committedGen <= i && NewestUnfailed(s.calls, i) && s.calls[i].value != value
  }

  lemma {:induction false} NewestUnfailedExists<V>(calls: seq<Call<V>>, low: nat) returns (i: int)
    requires low <= |calls| && exists k :: low <= k < |calls| && !calls[k].Failed?
    ensures low <= i && NewestUnfailed(calls, i)
    decreases |calls|
  {
    var n := |calls| - 1;
    if !calls[n].Failed? {
      i := n;
    } else {
      var k :| low <= k < |calls| && !calls[k].Failed?;
      assert k < n && !calls[..n][k].Failed?;
      i := NewestUnfailedExists(calls[..n], low);
      assert forall j | i < j < n :: calls[..n][j].Failed?;
    }
  }

  /** With every call reported, the server holds the value of the newest unfailed one. */
  lemma QuietStored<V(!new)>(s: System<V>, i: int)
    requires StoredIsNewestLanded(s) && Quiet(s) && AllHonest(s) && NewestUnfailed(s.calls, i)
    ensures s.stored == s.calls[i].value
  {
    assert Reported(s.calls[i]) && HasLanded(s.calls[i]) && Honest(s.calls[i]);
    if k :| 0 <= k < |s.calls| && HasLanded(s.calls[k]) && s.calls[k].saved == s.stored
            && forall j | k < j < |s.calls| :: !HasLanded(s.calls[j]) {
      assert k == i;
    }
  }

  /** The case of a dropped commit. */
  lemma CommittedChoice<V(!new)>(s: System<V>, s': System<V>)
    requires CommittedIsNewestSuccess(s) && AllHonest(s) && StoredIsNewestLanded(s)
    requires StoredIsNewestLanded(s') && Quiet(s') && AllHonest(s') && SameRequests(s.calls, s'.calls)
    requires s'.initial == s.initial
    ensures s'.stored == s.core.committed <==> !DroppedUnder(s, s.core.committed)
  {
    var low := s.core.committedGen;
    if k :| low <= k < |s.calls| && !s.calls[k].Failed? {
      var i := NewestUnfailedExists(s.calls, low);
      assert NewestUnfailed(s'.calls, i);
      QuietStored(s', i);
      assert forall j | NewestUnfailed(s.calls, j) :: j == i;
    } else if low > 0 {
      assert Honest(s.calls[low - 1]);
      assert NewestUnfailed(s'.calls, low - 1);
      QuietStored(s', low - 1);
    } else {
      assert forall i | 0 <= i < |s'.calls| :: s'.calls[i].Failed?;
    }
  }

  /** A commit of another value than the committed one leaves a newest call for the chosen value. */
  lemma OtherChoice<V(!new)>(s: System<V>, value: V)
    requires SlotOk(s, true) && value != s.core.committed
    ensures var calls := Step(s, Commit(value, true)).calls;
            calls != [] && calls[|calls| - 1].value == value && !calls[|calls| - 1].Failed?
  {
  }

  lemma NewestChoice<V(!new)>(chosen: System<V>, s': System<V>, value: V)
    requires chosen.calls != [] && chosen.calls[|chosen.calls| - 1].value == value && !chosen.calls[|chosen.calls| - 1].Failed?
    requires StoredIsNewestLanded(s') && Quiet(s') && AllHonest(s') && SameRequests(chosen.calls, s'.calls)
    ensures s'.stored == value
  {
    QuietStored(s', |chosen.calls| - 1);
  }

  /** The last commit of a transparency value, after which all outstanding calls land in order and
      succeed: in the end the server holds the chosen value exactly unless the commit was dropped, as one
      of the committed value, while a newer call for another value was out. */
  lemma LastChoiceIsStoredExactly<V(!new)>(initial: V, before: seq<Event<V>>, s: System<V>, value: V,
                                           events: seq<Event<V>>, s': System<V>)
    requires LeadsInOrder(Start(initial), before, s) && OneSetting(before, true)
    requires LeadsInOrder(Step(s, Commit(value, true)), events, s') && OnlyReplies(events)
    requires forall i | 0 <= i < |events| :: !events[i].Fails?
    requires Quiet(s') && AllHonest(s) && AllHonest(s')
    ensures s'.stored == value <==> !DroppedUnder(s, value)
  {
    StoredRun(Start(initial), before, s);
    ValidRun(Start(initial), before, s, true);
    var chosen := Step(s, Commit(value, true));
    StoredStep(s, Commit(value, true));
    StoredRun(chosen, events, s');
    RequestsKept(chosen, events, s');
    if value != s.core.committed {
      OtherChoice(s, value);
      NewestChoice(chosen, s', value);
    } else {
      CommittedChoice(s, s');
    }
  }

  /** The simplest such run: `b` is asked for, then the committed `a` again before the reply. No request
      is made for `a`, and the late success of `b` is stored, committed and painted. */
  lemma ChangedMindIsLost<V(!new)>(a: V, b: V) returns (events: seq<Event<V>>, s: System<V>)
    requires a != b
    ensures DroppedUnder(Step(Start(a), Commit(b, true)), a)
    ensures events == [Commit(b, true), Commit(a, true), Lands(1, b), Reports(1)] && LeadsInOrder(Start(a), events, s)
    ensures s.stored == s.core.committed == s.core.ui == b && Quiet(s)
  {
    events := [Commit(b, true), Commit(a, true), Lands(1, b), Reports(1)];
    var s1 := Step(Start(a), events[0]);
    assert NewestUnfailed(s1.calls, 0);
    var s2 := Step(s1, events[1]);
    var s3 := Step(s2, events[2]);
    s := Step(s3, events[3]);
    assert LeadsInOrder(s3, events[3..], s);
    assert LeadsInOrder(s2, events[2..], s);
    assert LeadsInOrder(s1, events[1..], s);
  }
}

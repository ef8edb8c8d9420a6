/** Live text of a turn, reassembled from channel events that may be lost, repeated or reordered
    (src/lib/turn-registry.ts, and `upsertTurnFromChannel` in src/stores/app-store.ts). */
module TurnRegistry {
  import opened Common

  datatype Status = Streaming | Completed | Failed | Cancelled

  datatype Turn = Turn(turnId: string, conversationId: string, status: Status, text: string, lastSequence: int)

  datatype TextEvent = TextEvent(text: Option<string>, delta: Option<string>, sequence: Option<int>)

  function CreateTurnLiveState(turnId: string, conversationId: string): Turn {
    Turn(turnId, conversationId, Streaming, "", 0)
  }

  function ApplyTextDelta(turn: Turn, e: TextEvent): Turn {
    if e.sequence.Some? && e.sequence.value <= turn.lastSequence then turn
    else if e.text.Some? then
      turn.(text := e.text.value, lastSequence := if e.sequence.Some? then e.sequence.value else turn.lastSequence)
    else if e.delta.Some? && e.sequence == Some(turn.lastSequence + 1) then
      turn.(text := turn.text + e.delta.value, lastSequence := e.sequence.value)
    else if e.delta.Some? && e.sequence.None? then turn.(text := turn.text + e.delta.value)
    else turn
  }

  function ApplyAll(turn: Turn, events: seq<TextEvent>): Turn
    decreases |events|
  {
    if events == [] then turn else ApplyAll(ApplyTextDelta(turn, events[0]), events[1..])
  }

  // ------------------------------------------------------------ one turn

  /** An event about the stream whose body after event `n` is `body(n)`: a full text is the body at
      its sequence, a delta alone extends the body before it. */
  predicate Truthful(e: TextEvent, body: nat -> string) {
    && e.sequence.Some? && e.sequence.value >= 1
    && (e.text.Some? ==> e.text.value == body(e.sequence.value))
    && (e.text.None? && e.delta.Some? ==> body(e.sequence.value) == body(e.sequence.value - 1) + e.delta.value)
  }

  predicate AllTruthful(events: seq<TextEvent>, body: nat -> string) {
    forall i | 0 <= i < |events| :: Truthful(events[i], body)
  }

  predicate CheckpointReached(e: TextEvent, lastSequence: int) {
    e.text.Some? ==> e.sequence.Some? && e.sequence.value <= lastSequence
  }

  predicate Accurate(turn: Turn, body: nat -> string) {
    turn.lastSequence >= 0 && turn.text == body(turn.lastSequence)
  }

  lemma {:induction false} ReassemblyFrom(turn: Turn, events: seq<TextEvent>, body: nat -> string)
    requires Accurate(turn, body) && AllTruthful(events, body)
    ensures Accurate(ApplyAll(turn, events), body)
    ensures ApplyAll(turn, events).lastSequence >= turn.lastSequence
    ensures forall i | 0 <= i < |events| :: 
              CheckpointReached(events[i], ApplyAll(turn, events).lastSequence)
    decreases |events|
  {
    if events != [] {
      assert Truthful(events[0], body);
      assert forall i | 0 <= i < |events[1..]| :: events[1..][i] == events[i + 1];
      ReassemblyFrom(ApplyTextDelta(turn, events[0]), events[1..], body);
      forall i | 0 <= i < |events| ensures CheckpointReached(events[i], ApplyAll(turn, events).lastSequence)
      {
        if i > 0 { assert events[i] == events[1..][i - 1]; }
      }
    }
  }

  /** Whatever is lost, repeated or reordered, a turn shows the true body at its last sequence, the
      sequence never goes back, and it has reached every checkpoint that was delivered. */
  lemma Reassembly(turnId: string, conversationId: string, events: seq<TextEvent>, more: seq<TextEvent>, body: nat -> string)
    requires body(0) == "" && AllTruthful(events + more, body)
    ensures var before := ApplyAll(CreateTurnLiveState(turnId, conversationId), events);
            var after := ApplyAll(CreateTurnLiveState(turnId, conversationId), events + more);
      && Accurate(before, body) && Accurate(after, body)
      && before.lastSequence <= after.lastSequence
      && (forall i | 0 <= i < |events| :: CheckpointReached(events[i], before.lastSequence))
  {
    var start := CreateTurnLiveState(turnId, conversationId);
    assert forall i | 0 <= i < |events| :: events[i] == (events + more)[i];
    assert forall i | 0 <= i < |more| :: more[i] == (events + more)[|events| + i];
    ReassemblyFrom(start, events, body);
    ApplyInTwo(start, events, more);
    ReassemblyFrom(ApplyAll(start, events), more, body);
  }

  lemma {:induction false} ApplyInTwo(turn: Turn, a: seq<TextEvent>, b: seq<TextEvent>)
    ensures ApplyAll(turn, a + b) == ApplyAll(ApplyAll(turn, a), b)
    decreases |a|
  {
    if a == [] {
      assert a + b == b;
    } else {
      assert (a + b)[1..] == a[1..] + b;
      ApplyInTwo(ApplyTextDelta(turn, a[0]), a[1..], b);
    }
  }

  /** Nothing is stuck after a loss: a checkpoint, and then every event after it in order, brings the
      turn to the last of them. */
  lemma {:induction false} CatchesUp(turn: Turn, events: seq<TextEvent>, from: nat, body: nat -> string)
    requires Accurate(turn, body) && turn.lastSequence <= from && AllTruthful(events, body) && events != []
    requires forall i | 0 <= i < |events| :: events[i].sequence == Some(from + i) && (events[i].text.Some? || events[i].delta.Some?)
    requires events[0].text.Some? || turn.lastSequence == from - 1
    ensures ApplyAll(turn, events).lastSequence == from + |events| - 1
    decreases |events|
  {
    assert Truthful(events[0], body);
    var next := ApplyTextDelta(turn, events[0]);
    assert next.lastSequence == from;
    if |events| > 1 {
      assert forall i | 0 <= i < |events[1..]| :: events[1..][i] == events[i + 1];
      var rest := events[1..];
      assert forall i | 0 <= i < |rest| :: rest[i] == events[i + 1];
      CatchesUp(next, rest, from + 1, body);
    }
  }

  // ------------------------------------------------------------ the registry

  datatype Registry = Registry(turnsById: map<string, Turn>, activeTurnIdByConversation: map<string, string>)

  function PendingTurnId(conversationId: string): string { "pending:" + conversationId }

  function CurrentId(r: Registry, conversationId: string): string {
    if conversationId in r.activeTurnIdByConversation then r.activeTurnIdByConversation[conversationId]
    else PendingTurnId(conversationId)
  }

  /** The registry key and record an event belongs to, moving a provisional record to its real id. */
  function UpsertTurnFromChannel(r: Registry, conversationId: string, eventTurnId: Option<string>): (string, Registry) {
    var currentId := CurrentId(r, conversationId);
    var turnId := if eventTurnId.Some? && eventTurnId.value != "" then eventTurnId.value else currentId;
    var turns :=
      if turnId in r.turnsById then r.turnsById
      else if turnId != currentId && currentId in r.turnsById then
        (r.turnsById - {currentId})[turnId := r.turnsById[currentId].(turnId := turnId)]
      else r.turnsById[turnId := CreateTurnLiveState(turnId, conversationId)];
    (turnId, Registry(turns, r.activeTurnIdByConversation[conversationId := turnId]))
  }

  /** Stream text is dropped while the conversation's listed turn has failed or was cancelled. */
  predicate Muted(r: Registry, conversationId: string) {
    && conversationId in r.activeTurnIdByConversation
    && var id := r.activeTurnIdByConversation[conversationId];
       id != "" && id in r.turnsById && r.turnsById[id].status in {Failed, Cancelled}
  }

  function Paint(r: Registry, conversationId: string, eventTurnId: Option<string>, e: TextEvent): Registry {
    var (turnId, r) := UpsertTurnFromChannel(r, conversationId, eventTurnId);
    r.(turnsById := r.turnsById[turnId := ApplyTextDelta(r.turnsById[turnId], e)])
  }

  function OnText(r: Registry, conversationId: string, eventTurnId: Option<string>, e: TextEvent): Registry {
    if Muted(r, conversationId) then r else Paint(r, conversationId, eventTurnId, e)
  }

  /** A call of the conversation has ended: whatever turn is listed then gets the status. */
  function Finalized(r: Registry, conversationId: string, status: Status): Registry {
    if conversationId in r.activeTurnIdByConversation
       && r.activeTurnIdByConversation[conversationId] != "" && r.activeTurnIdByConversation[conversationId] in r.turnsById then
      var id := r.activeTurnIdByConversation[conversationId];
      r.(turnsById := r.turnsById[id := r.turnsById[id].(status := status)])
    else r
  }

  datatype ChannelEvent = ChannelEvent(turnId: Option<string>, event: TextEvent)

  function OnTexts(r: Registry, conversationId: string, events: seq<ChannelEvent>): Registry
    decreases |events|
  {
    if events == [] then r
    else OnTexts(OnText(r, conversationId, events[0].turnId, events[0].event), conversationId, events[1..])
  }

  /** What sending a message puts in place before the first event. */
  function Provisioned(r: Registry, conversationId: string): Registry {
    var id := PendingTurnId(conversationId);
    Registry(r.turnsById[id := CreateTurnLiveState(id, conversationId)], r.activeTurnIdByConversation[conversationId := id])
  }

  /** The events of one new turn: each names the turn or nothing. */
  predicate OfTurn(events: seq<ChannelEvent>, turnId: string, body: nat -> string) {
    forall i | 0 <= i < |events| ::
      Truthful(events[i].event, body) && (events[i].turnId.None? || events[i].turnId.value in {"", turnId})
  }

  function Shown(r: Registry, conversationId: string): Turn
    requires CurrentId(r, conversationId) in r.turnsById
  {
    r.turnsById[CurrentId(r, conversationId)]
  }

  /** The conversation follows the turn under its provisional or its real id. */
  predicate Follows(r: Registry, conversationId: string, turnId: string, body: nat -> string) {
    && conversationId in r.activeTurnIdByConversation
    && CurrentId(r, conversationId) in r.turnsById
    && (CurrentId(r, conversationId) == turnId ||
        (CurrentId(r, conversationId) == PendingTurnId(conversationId) && turnId !in r.turnsById))
    && Accurate(Shown(r, conversationId), body) && Shown(r, conversationId).status.Streaming?
  }

  ghost predicate SameElsewhere(r: Registry, r': Registry, conversationId: string, turnId: string) {
    && (forall id :: id != turnId && id != PendingTurnId(conversationId) ==>
          (id in r.turnsById <==> id in r'.turnsById) && (id in r.turnsById ==> r.turnsById[id] == r'.turnsById[id]))
    && (forall c :: c != conversationId ==>
          (c in r.activeTurnIdByConversation <==> c in r'.activeTurnIdByConversation)
          && (c in r.activeTurnIdByConversation ==> r.activeTurnIdByConversation[c] == r'.activeTurnIdByConversation[c]))
  }

  /** Moving to the real id keeps the text and the sequence. */
  lemma OneTextEvent(r: Registry, conversationId: string, turnId: string, e: ChannelEvent, body: nat -> string)
    requires Follows(r, conversationId, turnId, body) && turnId != ""
    requires Truthful(e.event, body) && (e.turnId.None? || e.turnId.value in {"", turnId})
    ensures var r' := OnText(r, conversationId, e.turnId, e.event);
      && Follows(r', conversationId, turnId, body) && SameElsewhere(r, r', conversationId, turnId)
      && Shown(r', conversationId) == ApplyTextDelta(Shown(r, conversationId), e.event).(turnId := Shown(r', conversationId).turnId)
  {
    ReassemblyFrom(Shown(r, conversationId), [e.event], body);
    assert ApplyAll(Shown(r, conversationId), [e.event])
        == ApplyAll(ApplyTextDelta(Shown(r, conversationId), e.event), [e.event][1..]);
  }

  lemma {:induction false} RegistryReassemblyFrom(r: Registry, conversationId: string, turnId: string,
                                                  events: seq<ChannelEvent>, body: nat -> string)
    requires Follows(r, conversationId, turnId, body) && turnId != "" && OfTurn(events, turnId, body)
    ensures var r' := OnTexts(r, conversationId, events);
      && Follows(r', conversationId, turnId, body) && SameElsewhere(r, r', conversationId, turnId)
      && Shown(r, conversationId).lastSequence <= Shown(r', conversationId).lastSequence
    decreases |events|
  {
    if events != [] {
      var next := OnText(r, conversationId, events[0].turnId, events[0].event);
      OneTextEvent(r, conversationId, turnId, events[0], body);
      assert forall i | 0 <= i < |events| - 1 :: events[1..][i] == events[i + 1];
      RegistryReassemblyFrom(next, conversationId, turnId, events[1..], body);
    }
  }

  /** For a turn that was provisioned and whose id is new, the conversation shows the true body at
      its last sequence after any events of that turn, and every other turn is as before. */
  lemma RegistryReassembly(r: Registry, conversationId: string, turnId: string, events: seq<ChannelEvent>, body: nat -> string)
    requires body(0) == "" && turnId != "" && OfTurn(events, turnId, body)
    requires turnId !in r.turnsById && turnId != PendingTurnId(conversationId)
    ensures var r' := OnTexts(Provisioned(r, conversationId), conversationId, events);
      && CurrentId(r', conversationId) in r'.turnsById
      && Accurate(Shown(r', conversationId), body)
      && SameElsewhere(r, r', conversationId, turnId)
  {
    RegistryReassemblyFrom(Provisioned(r, conversationId), conversationId, turnId, events, body);
  }

  // ------------------------------------------------------------ several turns of one conversation

  /** What happens to a conversation: a message is sent (or a retry begun), a call ends, text arrives, an
      action or operation is reported (`always` if also while stream text is dropped), an error is reported.
      Every text event names its turn, as the sender does; the last two kinds name none. */
  datatype Event =
    | Send
    | Finish(status: Status)
    | Text(turnId: string, event: TextEvent)
    | Touch(always: bool)
    | Error

  /** The record listed for the conversation, made if there is none. */
  function Touched(r: Registry, conversationId: string): Registry { UpsertTurnFromChannel(r, conversationId, None).1 }

  function Errored(r: Registry, conversationId: string): Registry {
    var (turnId, r) := UpsertTurnFromChannel(r, conversationId, None);
    r.(turnsById := r.turnsById[turnId := r.turnsById[turnId].(status := Failed)])
  }

  function Step(r: Registry, conversationId: string, e: Event): Registry {
    match e
    case Send => Provisioned(r, conversationId)
    case Finish(status) => Finalized(r, conversationId, status)
    case Text(turnId, event) => OnText(r, conversationId, Some(turnId), event)
    case Touch(always) => if always || !Muted(r, conversationId) then Touched(r, conversationId) else r
    case Error => Errored(r, conversationId)
  }

  predicate IsBlank(turn: Turn) { turn.text == "" && turn.lastSequence == 0 }

  /** The record that the next new turn would take over has nothing in it. */
  predicate ReadyForANewTurn(r: Registry, conversationId: string) {
    CurrentId(r, conversationId) in r.turnsById ==> IsBlank(r.turnsById[CurrentId(r, conversationId)])
  }

  /** The turn is first heard of, and takes over a record that holds another turn's text and is not
      replaced by a full text beyond it. */
  predicate TakesOver(r: Registry, conversationId: string, turnId: string, full: bool, sequence: int) {
    && turnId !in r.turnsById && !Muted(r, conversationId) && CurrentId(r, conversationId) in r.turnsById
    && var listed := r.turnsById[CurrentId(r, conversationId)];
       listed.lastSequence >= 1 && !(full && sequence > listed.lastSequence)
  }

  /** The step is truthful, and no turn takes over another's text. */
  ghost predicate Proper(r: Registry, conversationId: string, e: Event, bodies: string -> (nat -> string)) {
    e.Text? ==>
      && e.turnId != "" && e.turnId != PendingTurnId(conversationId) && Truthful(e.event, bodies(e.turnId))
      && !TakesOver(r, conversationId, e.turnId, e.event.text.Some?, e.event.sequence.value)
  }

  ghost predicate ProperRun(r: Registry, conversationId: string, events: seq<Event>, bodies: string -> (nat -> string), r': Registry)
    decreases |events|
  {
    if events == [] then r' == r
    else Proper(r, conversationId, events[0], bodies)
         && ProperRun(Step(r, conversationId, events[0]), conversationId, events[1..], bodies, r')
  }

  /** Every turn's record is accurate for its own body, and the provisional one is blank. */
  ghost predicate AllAccurate(r: Registry, conversationId: string, bodies: string -> (nat -> string)) {
    forall id :: id in r.turnsById ==>
      if id == PendingTurnId(conversationId) then IsBlank(r.turnsById[id]) else Accurate(r.turnsById[id], bodies(id))
  }

  lemma TextStaysAccurate(turn: Turn, e: TextEvent, body: nat -> string)
    requires Accurate(turn, body) && Truthful(e, body)
    ensures Accurate(ApplyTextDelta(turn, e), body) && turn.lastSequence <= ApplyTextDelta(turn, e).lastSequence
  {
  }

  lemma StepStaysAccurate(r: Registry, conversationId: string, e: Event, bodies: string -> (nat -> string))
    requires AllAccurate(r, conversationId, bodies) && Proper(r, conversationId, e, bodies)
    requires forall id :: bodies(id)(0) == ""
    ensures AllAccurate(Step(r, conversationId, e), conversationId, bodies)
  {
    if e.Text? && !Muted(r, conversationId) {
      var (_, upserted) := UpsertTurnFromChannel(r, conversationId, Some(e.turnId));
      var turn := upserted.turnsById[e.turnId];
      if Accurate(turn, bodies(e.turnId)) {
        TextStaysAccurate(turn, e.event, bodies(e.turnId));
      } else {
        assert ApplyTextDelta(turn, e.event).text == bodies(e.turnId)(e.event.sequence.value);
      }
    }
  }

  /** Whatever is lost, repeated or reordered, and however the turns of a conversation interleave with
      each other, with new messages, calls that end, actions and errors: if no turn takes over another
      turn's text, every turn shows its own true body at its last sequence. */
  lemma {:induction false} TurnsReassemble(r: Registry, conversationId: string, events: seq<Event>,
                                           bodies: string -> (nat -> string), r': Registry)
    requires AllAccurate(r, conversationId, bodies) && ProperRun(r, conversationId, events, bodies, r')
    requires forall id :: bodies(id)(0) == ""
    ensures AllAccurate(r', conversationId, bodies)
    decreases |events|
  {
    if events != [] {
      StepStaysAccurate(r, conversationId, events[0], bodies);
      TurnsReassemble(Step(r, conversationId, events[0]), conversationId, events[1..], bodies, r');
    }
  }

  // And only then, over runs

  /** A step before it is known what the turns say: an event without text, or a text event of a turn with a
      sequence, carrying the full text or only what is new. */
  datatype Plan = Plain(e: Event) | Says(turnId: string, sequence: nat, full: bool)

  predicate WellPlanned(p: Plan, conversationId: string) {
    match p
    case Plain(e) => !e.Text?
    case Says(turnId, sequence, _) => turnId != "" && turnId != PendingTurnId(conversationId) && 1 <= sequence
  }

  predicate Extends(body: nat -> string, n: nat) { body(n) <= body(n + 1) }

  /** The turn only adds to its text. */
  ghost predicate Growing(body: nat -> string) { body(0) == "" && forall n: nat :: Extends(body, n) }

  /** The event as it is sent when the turns say `bodies`. */
  function Delivered(p: Plan, bodies: string -> (nat -> string)): Event {
    match p
    case Plain(e) => e
    case Says(turnId, sequence, full) =>
      var body := bodies(turnId);
      if full || sequence == 0 || !(body(sequence - 1) <= body(sequence)) then
        Text(turnId, TextEvent(Some(body(sequence)), None, Some(sequence)))
      else Text(turnId, TextEvent(None, Some(body(sequence)[|body(sequence - 1)|..]), Some(sequence)))
  }

  ghost predicate AlwaysAccurate(r: Registry, conversationId: string, plans: seq<Plan>, bodies: string -> (nat -> string))
    decreases |plans|
  {
    && AllAccurate(r, conversationId, bodies)
    && (plans == [] ||
        AlwaysAccurate(Step(r, conversationId, Delivered(plans[0], bodies)), conversationId, plans[1..], bodies))
  }

  predicate PlanTakesOver(r: Registry, conversationId: string, p: Plan) {
    p.Says? && TakesOver(r, conversationId, p.turnId, p.full, p.sequence)
  }

  /** No step of the run takes over another turn's text; who lists what does not depend on the texts, so
      the run of turns that say nothing tells. */
  predicate NeverTakesOver(r: Registry, conversationId: string, plans: seq<Plan>)
    decreases |plans|
  {
    plans == [] || (!PlanTakesOver(r, conversationId, plans[0])
                    && NeverTakesOver(Step(r, conversationId, Delivered(plans[0], SILENT)), conversationId, plans[1..]))
  }

  const SILENT: string -> (nat -> string) := (turnId: string) => (n: nat) => ""

  /** The same records but for what they say. */
  ghost predicate Alike(r: Registry, r': Registry) {
    && r.activeTurnIdByConversation == r'.activeTurnIdByConversation && r.turnsById.Keys == r'.turnsById.Keys
    && forall id :: id in r.turnsById ==> r.turnsById[id].(text := "") == r'.turnsById[id].(text := "")
  }

  lemma UpsertAlike(r: Registry, r': Registry, conversationId: string, turnId: Option<string>)
    requires Alike(r, r')
    ensures var (id, u) := UpsertTurnFromChannel(r, conversationId, turnId);
            var (id', u') := UpsertTurnFromChannel(r', conversationId, turnId);
            id == id' && Alike(u, u') && id in u.turnsById
  {
  }

  /** The same event but for what it says. */
  predicate SameKind(e: TextEvent, e': TextEvent) {
    e.text.Some? == e'.text.Some? && e.delta.Some? == e'.delta.Some? && e.sequence == e'.sequence
  }

  lemma ApplyAlike(turn: Turn, turn': Turn, e: TextEvent, e': TextEvent)
    requires turn.(text := "") == turn'.(text := "") && SameKind(e, e')
    ensures ApplyTextDelta(turn, e).(text := "") == ApplyTextDelta(turn', e').(text := "")
  {
  }

  lemma TextAlike(r: Registry, r': Registry, conversationId: string, turnId: string, e: TextEvent, e': TextEvent)
    requires Alike(r, r') && SameKind(e, e')
    ensures Alike(OnText(r, conversationId, Some(turnId), e), OnText(r', conversationId, Some(turnId), e'))
  {
    assert Muted(r, conversationId) <==> Muted(r', conversationId);
    if !Muted(r, conversationId) {
      UpsertAlike(r, r', conversationId, Some(turnId));
      var (id, u) := UpsertTurnFromChannel(r, conversationId, Some(turnId));
      var (_, u') := UpsertTurnFromChannel(r', conversationId, Some(turnId));
      ApplyAlike(u.turnsById[id], u'.turnsById[id], e, e');
    }
  }

  lemma PlainAlike(r: Registry, r': Registry, conversationId: string, e: Event)
    requires Alike(r, r') && !e.Text?
    ensures Alike(Step(r, conversationId, e), Step(r', conversationId, e))
  {
    assert Muted(r, conversationId) <==> Muted(r', conversationId);
    UpsertAlike(r, r', conversationId, None);
  }

  lemma DeliveredAlike(p: Plan, conversationId: string, bodies: string -> (nat -> string))
    requires p.Says? && WellPlanned(p, conversationId) && Growing(bodies(p.turnId))
    ensures var e, e' := Delivered(p, bodies), Delivered(p, SILENT);
            e.Text? && e'.Text? && e.turnId == e'.turnId == p.turnId && SameKind(e.event, e'.event)
  {
    assert Extends(bodies(p.turnId), p.sequence - 1);
  }

  lemma StepAlike(r: Registry, r': Registry, conversationId: string, p: Plan, bodies: string -> (nat -> string))
    requires Alike(r, r') && WellPlanned(p, conversationId) && (p.Says? ==> Growing(bodies(p.turnId)))
    ensures PlanTakesOver(r, conversationId, p) <==> PlanTakesOver(r', conversationId, p)
    ensures Alike(Step(r, conversationId, Delivered(p, bodies)), Step(r', conversationId, Delivered(p, SILENT)))
  {
    assert Muted(r, conversationId) <==> Muted(r', conversationId);
    if p.Says? {
      DeliveredAlike(p, conversationId, bodies);
      TextAlike(r, r', conversationId, p.turnId, Delivered(p, bodies).event, Delivered(p, SILENT).event);
    } else {
      PlainAlike(r, r', conversationId, p.e);
    }
  }

  ghost predicate AllGrow(bodies: string -> (nat -> string)) { forall id :: Growing(bodies(id)) }

  ghost predicate Planned(conversationId: string, plans: seq<Plan>) {
    forall i :: 0 <= i < |plans| ==> WellPlanned(plans[i], conversationId)
  }

  lemma PlanIsTruthful(p: Plan, conversationId: string, bodies: string -> (nat -> string))
    requires p.Says? && WellPlanned(p, conversationId) && Growing(bodies(p.turnId))
    ensures Truthful(Delivered(p, bodies).event, bodies(p.turnId))
    ensures Delivered(p, bodies).event.text.Some? == p.full && Delivered(p, bodies).event.sequence == Some(p.sequence)
  {
    assert Extends(bodies(p.turnId), p.sequence - 1);
  }

  lemma {:induction false} NoTakeOverStaysAccurate(
      r: Registry, r': Registry, conversationId: string, plans: seq<Plan>, bodies: string -> (nat -> string))
    requires AllAccurate(r, conversationId, bodies) && Alike(r, r') && AllGrow(bodies) && Planned(conversationId, plans)
    requires NeverTakesOver(r', conversationId, plans)
    ensures AlwaysAccurate(r, conversationId, plans, bodies)
    decreases |plans|
  {
    if plans != [] {
      var p := plans[0];
      assert WellPlanned(p, conversationId);
      if p.Says? {
        assert Growing(bodies(p.turnId));
        PlanIsTruthful(p, conversationId, bodies);
      }
      StepAlike(r, r', conversationId, p, bodies);
      assert forall id :: Growing(bodies(id)) ==> bodies(id)(0) == "";
      StepStaysAccurate(r, conversationId, Delivered(p, bodies), bodies);
      assert forall i :: 0 <= i < |plans| - 1 ==> plans[1..][i] == plans[i + 1];
      NoTakeOverStaysAccurate(Step(r, conversationId, Delivered(p, bodies)), Step(r', conversationId, Delivered(p, SILENT)),
                              conversationId, plans[1..], bodies);
    }
  }

  function Repeated(c: char, n: nat): string { seq(n, i => c) }

  /** Bodies that tell one turn from all others by every text. */
  function Apart(turnId: string): string -> (nat -> string) {
    (id: string) => (n: nat) => Repeated(if id == turnId then 'a' else 'b', n)
  }

  lemma ApartGrow(turnId: string)
    ensures AllGrow(Apart(turnId))
  {
    forall id ensures Growing(Apart(turnId)(id)) {
      var c := if id == turnId then 'a' else 'b';
      forall n: nat ensures Extends(Apart(turnId)(id), n) {
        assert Apart(turnId)(id)(n) == Repeated(c, n) && Apart(turnId)(id)(n + 1) == Repeated(c, n + 1);
        assert Repeated(c, n) <= Repeated(c, n + 1);
      }
      assert Apart(turnId)(id)(0) == Repeated(c, 0) == "";
    }
  }

  lemma OtherText(turn: Turn, e: TextEvent, body: nat -> string)
    requires turn.lastSequence >= 1 && turn.text == Repeated('b', turn.lastSequence) && e.sequence.Some?
    requires !(e.text.Some? && e.sequence.value > turn.lastSequence)
    requires forall n: nat :: body(n) == Repeated('a', n)
    ensures !Accurate(ApplyTextDelta(turn, e), body)
  {
    var now := ApplyTextDelta(turn, e);
    assert now.text[0] == 'b' && now.lastSequence >= 1;
    assert Repeated('a', now.lastSequence)[0] == 'a';
  }

  /** A taken-over record shows what another turn said. */
  lemma TakeOverIsWrong(r: Registry, conversationId: string, p: Plan)
    requires p.Says? && WellPlanned(p, conversationId) && PlanTakesOver(r, conversationId, p)
    requires AllAccurate(r, conversationId, Apart(p.turnId))
    ensures !AllAccurate(Step(r, conversationId, Delivered(p, Apart(p.turnId))), conversationId, Apart(p.turnId))
  {
    var bodies, t, id := Apart(p.turnId), p.turnId, CurrentId(r, conversationId);
    ApartGrow(t);
    assert Growing(bodies(t));
    PlanIsTruthful(p, conversationId, bodies);
    DeliveredAlike(p, conversationId, bodies);
    var listed, e := r.turnsById[id], Delivered(p, bodies).event;
    assert id != PendingTurnId(conversationId);
    assert Accurate(listed, bodies(id));
    OtherText(listed.(turnId := t), e, bodies(t));
    TakenOver(r, conversationId, t, e);
  }

  /** The first event of a turn moves the listed record to it. */
  lemma TakenOver(r: Registry, conversationId: string, turnId: string, e: TextEvent)
    requires turnId != "" && turnId !in r.turnsById && CurrentId(r, conversationId) in r.turnsById && !Muted(r, conversationId)
    ensures var r' := Step(r, conversationId, Text(turnId, e));
            turnId in r'.turnsById
            && r'.turnsById[turnId] == ApplyTextDelta(r.turnsById[CurrentId(r, conversationId)].(turnId := turnId), e)
  {
  }

  /** The plan takes over for turn `turnId` at some step. */
  predicate TakesOverSomewhere(r: Registry, conversationId: string, plans: seq<Plan>, turnId: string)
    decreases |plans|
  {
    plans != [] && ((PlanTakesOver(r, conversationId, plans[0]) && plans[0].turnId == turnId)
      || TakesOverSomewhere(Step(r, conversationId, Delivered(plans[0], SILENT)), conversationId, plans[1..], turnId))
  }

  lemma {:induction false} SomewhereOrNever(r: Registry, conversationId: string, plans: seq<Plan>) returns (turnId: string)
    ensures NeverTakesOver(r, conversationId, plans) || TakesOverSomewhere(r, conversationId, plans, turnId)
    decreases |plans|
  {
    turnId := "";
    if plans != [] {
      if PlanTakesOver(r, conversationId, plans[0]) {
        turnId := plans[0].turnId;
      } else {
        turnId := SomewhereOrNever(Step(r, conversationId, Delivered(plans[0], SILENT)), conversationId, plans[1..]);
      }
    }
  }

  lemma {:induction false} SomewhereIsWrong(r: Registry, r': Registry, conversationId: string, plans: seq<Plan>, turnId: string)
    requires Alike(r, r') && Planned(conversationId, plans) && TakesOverSomewhere(r', conversationId, plans, turnId)
    ensures !AlwaysAccurate(r, conversationId, plans, Apart(turnId))
    decreases |plans|
  {
    var p, bodies := plans[0], Apart(turnId);
    assert WellPlanned(p, conversationId);
    ApartGrow(turnId);
    if p.Says? { assert Growing(bodies(p.turnId)); }
    StepAlike(r, r', conversationId, p, bodies);
    if AllAccurate(r, conversationId, bodies) {
      var next := Step(r, conversationId, Delivered(p, bodies));
      if PlanTakesOver(r', conversationId, p) && p.turnId == turnId {
        TakeOverIsWrong(r, conversationId, p);
        assert !AlwaysAccurate(next, conversationId, plans[1..], bodies);
      } else {
        assert forall i :: 0 <= i < |plans| - 1 ==> plans[1..][i] == plans[i + 1];
        SomewhereIsWrong(next, Step(r', conversationId, Delivered(p, SILENT)), conversationId, plans[1..], turnId);
      }
    }
  }

  const EMPTY := Registry(map[], map[])

  /** The condition is exact over runs. Fix which events of which turns arrive in which order, with which
      sequences and whether with the full text, among messages, ends of calls, actions and errors. Every
      turn shows its own true body at every moment, whatever the turns say, exactly when no turn is first
      heard of while a record with another turn's text is listed, except by a full text beyond it. */
  lemma TurnsReassembleExactly(conversationId: string, plans: seq<Plan>)
    requires Planned(conversationId, plans)
    ensures (forall bodies :: AllGrow(bodies) ==> AlwaysAccurate(EMPTY, conversationId, plans, bodies))
       <==> NeverTakesOver(EMPTY, conversationId, plans)
  {
    if NeverTakesOver(EMPTY, conversationId, plans) {
      forall bodies | AllGrow(bodies) ensures AlwaysAccurate(EMPTY, conversationId, plans, bodies) {
        NoTakeOverStaysAccurate(EMPTY, EMPTY, conversationId, plans, bodies);
      }
    } else {
      var turnId := SomewhereOrNever(EMPTY, conversationId, plans);
      ApartGrow(turnId);
      SomewhereIsWrong(EMPTY, EMPTY, conversationId, plans, turnId);
    }
  }

  /** The first event of a turn is right, whatever the turn says and whichever of its events comes first. */
  ghost predicate RightForAll(r: Registry, conversationId: string, turnId: string) {
    forall body: nat -> string, e: TextEvent :: body(0) == "" && Truthful(e, body) ==>
      var r' := OnText(r, conversationId, Some(turnId), e);
      turnId in r'.turnsById && Accurate(r'.turnsById[turnId], body)
  }

  /** One first event: it is right, whichever of the turn's events it is, exactly when the record listed for
      the conversation is absent or blank. Otherwise the turn takes over another turn's text. */
  lemma FirstEventExactly(r: Registry, conversationId: string, turnId: string)
    requires turnId != "" && turnId !in r.turnsById && turnId != CurrentId(r, conversationId) && !Muted(r, conversationId)
    requires CurrentId(r, conversationId) in r.turnsById ==> r.turnsById[CurrentId(r, conversationId)].lastSequence >= 0
    ensures RightForAll(r, conversationId, turnId) <==> ReadyForANewTurn(r, conversationId)
  {
    if ReadyForANewTurn(r, conversationId) {
      forall body: nat -> string, e: TextEvent | body(0) == "" && Truthful(e, body)
        ensures var r' := OnText(r, conversationId, Some(turnId), e);
                turnId in r'.turnsById && Accurate(r'.turnsById[turnId], body)
      {
        var (_, upserted) := UpsertTurnFromChannel(r, conversationId, Some(turnId));
        TextStaysAccurate(upserted.turnsById[turnId], e, body);
      }
    } else {
      var listed := r.turnsById[CurrentId(r, conversationId)];
      var other := if listed.text == "x" then "y" else "x";
      var body := (n: nat) => if n == 0 then "" else other;
      var e := TextEvent(if listed.lastSequence == 0 then None else Some(other), None, Some(1));
      assert "x"[0] != "y"[0] && Truthful(e, body);
      var r' := OnText(r, conversationId, Some(turnId), e);
      assert r'.turnsById[turnId] == ApplyTextDelta(listed.(turnId := turnId), e);
      assert r'.turnsById[turnId].text == listed.text && r'.turnsById[turnId].lastSequence == listed.lastSequence;
      assert !Accurate(r'.turnsById[turnId], body);
    }
  }

  /** A first event takes over the record of the turn listed for the conversation, text and sequence
      included, and is itself dropped if its sequence is not beyond. */
  lemma FirstEventInherits(r: Registry, conversationId: string, earlier: string, turnId: string, e: TextEvent)
    requires conversationId in r.activeTurnIdByConversation && r.activeTurnIdByConversation[conversationId] == earlier
    requires earlier in r.turnsById && turnId !in r.turnsById && turnId != "" && !Muted(r, conversationId)
    requires e.sequence.Some? && e.sequence.value <= r.turnsById[earlier].lastSequence
    ensures var r' := OnText(r, conversationId, Some(turnId), e);
      && CurrentId(r', conversationId) == turnId && turnId in r'.turnsById && earlier !in r'.turnsById
      && Shown(r', conversationId) == r.turnsById[earlier].(turnId := turnId)
  {
  }

  /** How that comes about although every message provisions a blank record: a late event of the turn
      before lists that turn again. If it had completed, the new turn then takes over its text. */
  lemma LateEventMisleads(r: Registry, conversationId: string, earlier: string, turnId: string, late: TextEvent, first: TextEvent)
    requires earlier in r.turnsById && !(r.turnsById[earlier].status in {Failed, Cancelled})
    requires earlier != "" && earlier != PendingTurnId(conversationId)
    requires turnId != "" && turnId != PendingTurnId(conversationId) && turnId !in r.turnsById
    requires first.sequence.Some? && first.sequence.value <= ApplyTextDelta(r.turnsById[earlier], late).lastSequence
    ensures var r' := Step(Step(Step(r, conversationId, Send), conversationId, Text(earlier, late)), conversationId, Text(turnId, first));
      && CurrentId(r', conversationId) == turnId && turnId in r'.turnsById && earlier !in r'.turnsById
      && Shown(r', conversationId) == ApplyTextDelta(r.turnsById[earlier], late).(turnId := turnId)
  {
    var late' := Step(Step(r, conversationId, Send), conversationId, Text(earlier, late));
    assert late'.turnsById[earlier] == ApplyTextDelta(r.turnsById[earlier], late);
    FirstEventInherits(late', conversationId, earlier, turnId, first);
  }

  lemma {:induction false} MutedStaysMuted(r: Registry, conversationId: string, events: seq<Event>)
    requires Muted(r, conversationId) && forall i: nat :: i < |events| ==> events[i].Text?
    ensures AfterAll(r, conversationId, events) == r
    decreases |events|
  {
    if events != [] { MutedStaysMuted(r, conversationId, events[1..]); }
  }

  function AfterAll(r: Registry, conversationId: string, events: seq<Event>): Registry
    decreases |events|
  {
    if events == [] then r else AfterAll(Step(r, conversationId, events[0]), conversationId, events[1..])
  }

  /** If the earlier turn had failed or was cancelled, listing it again mutes the conversation: all text of
      the new turn is dropped. */
  lemma LateEventMutes(r: Registry, conversationId: string, earlier: string, late: TextEvent, events: seq<Event>)
    requires earlier in r.turnsById && r.turnsById[earlier].status in {Failed, Cancelled}
    requires earlier != "" && earlier != PendingTurnId(conversationId) && forall i: nat :: i < |events| ==> events[i].Text?
    ensures var r' := Step(Step(r, conversationId, Send), conversationId, Text(earlier, late));
            AfterAll(r', conversationId, events) == r'
  {
    MutedStaysMuted(Step(Step(r, conversationId, Send), conversationId, Text(earlier, late)), conversationId, events);
  }

  /** So does the earlier call when it fails or reports an error only now: that ends the turn that is
      listed, which is the new one. */
  lemma LateFailureMutes(r: Registry, conversationId: string, status: Status, events: seq<Event>)
    requires status in {Failed, Cancelled} && forall i: nat :: i < |events| ==> events[i].Text?
    ensures var r' := Step(Step(r, conversationId, Send), conversationId, Finish(status));
            AfterAll(r', conversationId, events) == r'
    ensures var r' := Step(Step(r, conversationId, Send), conversationId, Error);
            AfterAll(r', conversationId, events) == r'
  {
    MutedStaysMuted(Step(Step(r, conversationId, Send), conversationId, Finish(status)), conversationId, events);
    MutedStaysMuted(Step(Step(r, conversationId, Send), conversationId, Error), conversationId, events);
  }

  /** Stream text of a conversation goes nowhere exactly while its listed turn has failed or was cancelled. */
  lemma DroppedExactlyWhenMuted(r: Registry, conversationId: string, turnId: string, e: TextEvent)
    requires turnId != "" && e.text.Some? && e.sequence.Some? && e.sequence.value >= 1
    requires turnId in r.turnsById ==> e.sequence.value > r.turnsById[turnId].lastSequence
    ensures Step(r, conversationId, Text(turnId, e)) == r <==> Muted(r, conversationId)
  {
    if !Muted(r, conversationId) && turnId in r.turnsById {
      var r' := Step(r, conversationId, Text(turnId, e));
      assert r'.turnsById[turnId].lastSequence == e.sequence.value;
    }
  }

  // ------------------------------------------------------------ records and their ids

  /** Every record is filed under its own id and belongs to the conversation, and the listed one is there. */
  ghost predicate Filed(r: Registry, conversationId: string) {
    && (forall id :: id in r.turnsById ==> r.turnsById[id].turnId == id && r.turnsById[id].conversationId == conversationId)
    && (conversationId in r.activeTurnIdByConversation ==> r.activeTurnIdByConversation[conversationId] in r.turnsById)
  }

  lemma FiledStep(r: Registry, conversationId: string, e: Event)
    requires Filed(r, conversationId)
    ensures Filed(Step(r, conversationId, e), conversationId)
  {
  }

  /** Whatever happens in whatever order, the records of a conversation stay filed. */
  lemma {:induction false} RecordsStayFiled(r: Registry, conversationId: string, events: seq<Event>)
    requires Filed(r, conversationId)
    ensures Filed(AfterAll(r, conversationId, events), conversationId)
    decreases |events|
  {
    if events != [] {
      FiledStep(r, conversationId, events[0]);
      RecordsStayFiled(Step(r, conversationId, events[0]), conversationId, events[1..]);
    }
  }

  /** The id stands for the conversation's provisional record, or for the turn listed for it. */
  predicate IsCurrent(r: Registry, conversationId: string, id: string) {
    if conversationId in r.activeTurnIdByConversation then r.activeTurnIdByConversation[conversationId] == id
    else id == "pending:" + conversationId
  }

  /** An action, an operation or an error lists the current record, made blank if it is missing; an error
      marks it as failed, and the reports that respect a failed turn then change nothing. */
  lemma ReportsListTheRecord(r: Registry, conversationId: string, always: bool, id: string)
    requires IsCurrent(r, conversationId, id)
    ensures var was := if id in r.turnsById then r.turnsById[id] else Turn(id, conversationId, Streaming, "", 0);
            var listed := r.activeTurnIdByConversation[conversationId := id];
      && Step(r, conversationId, Error) == Registry(r.turnsById[id := was.(status := Failed)], listed)
      && (always || was.status in {Streaming, Completed} || conversationId !in r.activeTurnIdByConversation || id == "" ==>
            Step(r, conversationId, Touch(always)) == Registry(r.turnsById[id := was], listed))
      && (!always && was.status in {Failed, Cancelled} && conversationId in r.activeTurnIdByConversation && id != "" ==>
            Step(r, conversationId, Touch(always)) == r)
  {
    assert id in r.turnsById ==> r.turnsById[id := r.turnsById[id]] == r.turnsById;
  }

  /** The end of a call gives the listed record its status, and only that one; if none is listed by name,
      or the listed one is not there, nothing changes. */
  lemma EndMarksTheListed(r: Registry, conversationId: string, status: Status, id: string)
    requires IsCurrent(r, conversationId, id)
    ensures Step(r, conversationId, Finish(status)) ==
              if conversationId in r.activeTurnIdByConversation && id != "" && id in r.turnsById
              then r.(turnsById := r.turnsById[id := r.turnsById[id].(status := status)]) else r
  {
  }

  /** A sent message lists a blank record under the provisional id, which no other conversation has. */
  lemma SendingStartsBlank(r: Registry, conversationId: string, other: string)
    ensures var id := "pending:" + conversationId;
            Step(r, conversationId, Send) ==
              Registry(r.turnsById[id := Turn(id, conversationId, Streaming, "", 0)], r.activeTurnIdByConversation[conversationId := id])
    ensures PendingTurnId(conversationId) == PendingTurnId(other) ==> conversationId == other
  {
    assert PendingTurnId(conversationId)[8..] == conversationId && PendingTurnId(other)[8..] == other;
  }

  function Joined(deltas: seq<string>): string { if deltas == [] then "" else deltas[0] + Joined(deltas[1..]) }

  /** Deltas without a sequence number are appended as they come, and the sequence stays. */
  lemma {:induction false} UnnumberedDeltasAppend(turn: Turn, events: seq<TextEvent>, deltas: seq<string>)
    requires |events| == |deltas| && forall i | 0 <= i < |events| :: events[i] == TextEvent(None, Some(deltas[i]), None)
    ensures ApplyAll(turn, events) == turn.(text := turn.text + Joined(deltas))
    decreases |events|
  {
    if events != [] {
      var rest := events[1..];
      assert forall i | 0 <= i < |rest| :: rest[i] == events[i + 1];
      UnnumberedDeltasAppend(turn.(text := turn.text + deltas[0]), rest, deltas[1..]);
    }
  }

  /** A text without a sequence number replaces the text and keeps the sequence; with an old number it is
      dropped, with a newer one it brings the turn there. A numbered delta counts only if it is the next. */
  lemma TextsAreTakenInOrder(turn: Turn, text: string, sequence: int)
    ensures ApplyTextDelta(turn, TextEvent(Some(text), None, None)) == turn.(text := text)
    ensures ApplyTextDelta(turn, TextEvent(Some(text), None, Some(sequence)))
            == if sequence <= turn.lastSequence then turn else turn.(text := text, lastSequence := sequence)
    ensures ApplyTextDelta(turn, TextEvent(None, Some(text), Some(sequence)))
            == if sequence != turn.lastSequence + 1 then turn else turn.(text := turn.text + text, lastSequence := sequence)
  {
  }
}

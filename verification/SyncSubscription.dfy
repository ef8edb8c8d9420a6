/** The conversation Sync channel (`ensureConversationSyncSubscription` in src/stores/app-store.ts):
    every subscribe call takes a ticket, and its late resolution is checked against the newest one. */
module SyncSubscription {
  import opened Common

  /** The module-level variables. A channel is named by the ticket of its subscribe call. */
  datatype Core = Core(
    generation: nat,
    unlisten: Option<nat>,
    conversationId: Option<string>,
    pendingPromise: Option<nat>,
    pendingId: Option<string>)

  predicate IsLive(c: Core, conversation: string) {
    && conversation == (if c.conversationId.Some? then c.conversationId.value else "")
    && (c.unlisten.Some? || (c.pendingId == Some(conversation) && c.pendingPromise.Some?))
  }

  /** The variables after a call, and whether it subscribes (with the new generation as ticket). */
  function Ensured(c: Core, conversation: string, force: bool): (Core, bool) {
    if !force && IsLive(c, Trim(conversation)) then (c, false)
    else if Trim(conversation) == "" then (Core(c.generation + 1, None, None, None, None), false)
    else
      (Core(c.generation + 1, None, Some(Trim(conversation)), Some(c.generation + 1), Some(Trim(conversation))), true)
  }

  predicate IsCurrent(c: Core, ticket: nat, conversation: string) {
    c.generation == ticket && c.conversationId == Some(conversation)
  }

  class ConversationSync {
    var generation: nat
    var unlisten: Option<nat>
    var conversationId: Option<string>
    var pendingPromise: Option<nat>
    var pendingId: Option<string>

    ghost function View(): Core
      reads this
    {
      Core(generation, unlisten, conversationId, pendingPromise, pendingId)
    }

    constructor ()
      ensures View() == Core(0, None, None, None, None)
    {
      generation, unlisten, conversationId, pendingPromise, pendingId := 0, None, None, None, None;
    }

    /** `stopped` is the channel this call stops; `subscribe` asks for a channel for `generation`. */
    method EnsureSubscription(conversation: string, force: bool) returns (stopped: Option<nat>, subscribe: bool)
      modifies this
      ensures (View(), subscribe) == Ensured(old(View()), conversation, force)
      ensures stopped == if View() == old(View()) then None else old(unlisten)
    {
      var trimmed := Trim(conversation);
      if !force && trimmed == (if conversationId.Some? then conversationId.value else "") {
        if unlisten.Some? {
          return None, false;
        }
        if pendingId == Some(trimmed) && pendingPromise.Some? {
          return None, false;
        }
      }
      generation := generation + 1;
      var ticket := generation;
      stopped := unlisten;
      unlisten := None;
      pendingPromise := None;
      pendingId := None;
      conversationId := if trimmed == "" then None else Some(trimmed);
      if trimmed == "" {
        return stopped, false;
      }
      pendingId := Some(trimmed);
      pendingPromise := Some(ticket);
      subscribe := true;
    }

    /** The subscribe call of `ticket` came back with a channel; tells whether to stop it at once. */
    method OnSubscribed(ticket: nat, conversation: string) returns (stopNow: bool)
      modifies this
      ensures stopNow <==> !IsCurrent(old(View()), ticket, conversation)
      ensures View() == if stopNow then old(View())
                        else old(View()).(pendingPromise := None, pendingId := None, unlisten := Some(ticket))
    {
      if generation != ticket || conversationId != Some(conversation) {
        return true;
      }
      pendingPromise := None;
      pendingId := None;
      unlisten := Some(ticket);
      stopNow := false;
    }

    method OnSubscribeFailed(ticket: nat, conversation: string)
      modifies this
      ensures View() == if IsCurrent(old(View()), ticket, conversation)
                        then old(View()).(pendingPromise := None, pendingId := None, conversationId := None)
                        else old(View())
    {
      if generation == ticket && conversationId == Some(conversation) {
        pendingPromise := None;
        pendingId := None;
        conversationId := None;
      }
    }
  }

  // ------------------------------------------------------------ all channels over a run

  /** What became of a ticket. `stops` counts calls of the channel's stop function. */
  datatype Channel =
    | NotRequested
    | Requested(conversation: string)
    | Open(conversation: string, stops: nat)
    | Refused(conversation: string)

  /** Ticket `t` is `channels[t - 1]`; `applied` lists the tickets whose events were applied. */
  datatype System = System(core: Core, channels: seq<Channel>, applied: seq<nat>)

  datatype Event =
    | Ensure(conversation: string, force: bool)
    | Resolves(ticket: nat)
    | Rejects(ticket: nat)
    | Delivers(ticket: nat)

  function ChannelOf(s: System, ticket: nat): Channel {
    if 1 <= ticket <= |s.channels| then s.channels[ticket - 1] else NotRequested
  }

  /** A channel may deliver as soon as it was asked for, and even after it was stopped. */
  predicate Enabled(s: System, e: Event) {
    match e
    case Ensure(_, _) => true
    case Resolves(t) => ChannelOf(s, t).Requested?
    case Rejects(t) => ChannelOf(s, t).Requested?
    case Delivers(t) => ChannelOf(s, t).Requested? || ChannelOf(s, t).Open?
  }

  function Stopped(channels: seq<Channel>, which: Option<nat>): seq<Channel> {
    if which.Some? && 1 <= which.value <= |channels| && channels[which.value - 1].Open? then
      var ch := channels[which.value - 1];
      channels[which.value - 1 := ch.(stops := ch.stops + 1)]
    else channels
  }

  function Step(s: System, e: Event): System
    requires Enabled(s, e)
  {
    match e
    case Ensure(conversation, force) =>
      var (core, subscribe) := Ensured(s.core, conversation, force);
      if core.generation == s.core.generation then s
      else
        var asked := if subscribe then Requested(Trim(conversation)) else NotRequested;
        s.(core := core, channels := Stopped(s.channels, s.core.unlisten) + [asked])
    case Resolves(t) =>
      var conversation := ChannelOf(s, t).conversation;
      if IsCurrent(s.core, t, conversation) then
        s.(core := s.core.(pendingPromise := None, pendingId := None, unlisten := Some(t)),
           channels := s.channels[t - 1 := Open(conversation, 0)])
      else s.(channels := s.channels[t - 1 := Open(conversation, 1)])
    case Rejects(t) =>
      var conversation := ChannelOf(s, t).conversation;
      var core := if IsCurrent(s.core, t, conversation)
                  then s.core.(pendingPromise := None, pendingId := None, conversationId := None) else s.core;
      s.(core := core, channels := s.channels[t - 1 := Refused(conversation)])
    case Delivers(t) =>
      if IsCurrent(s.core, t, ChannelOf(s, t).conversation) then s.(applied := s.applied + [t]) else s
  }

  const START := System(Core(0, None, None, None, None), [], [])

  ghost predicate Leads(s: System, events: seq<Event>, s': System)
    decreases |events|
  {
    if events == [] then s' == s
    else Enabled(s, events[0]) && Leads(Step(s, events[0]), events[1..], s')
  }

  /** The variables as a function of what became of the newest ticket. */
  ghost predicate CoreMatchesNewest(s: System) {
    && s.core.generation == |s.channels|
    && match ChannelOf(s, |s.channels|)
       case NotRequested => s.core == Core(|s.channels|, None, None, None, None)
       case Requested(c) => s.core == Core(|s.channels|, None, Some(c), Some(|s.channels|), Some(c)) && c != ""
       case Open(c, stops) => s.core == Core(|s.channels|, Some(|s.channels|), Some(c), None, None) && stops == 0 && c != ""
       case Refused(c) => s.core == Core(|s.channels|, None, None, None, None)
  }

  /** No older channel is left running, and none was stopped twice. */
  ghost predicate OlderAreStopped(s: System) {
    forall t: nat | 1 <= t < |s.channels| :: ChannelOf(s, t).Open? ==> ChannelOf(s, t).stops == 1
  }

  lemma TicketsStep(s: System, e: Event)
    requires CoreMatchesNewest(s) && OlderAreStopped(s) && Enabled(s, e)
    ensures CoreMatchesNewest(Step(s, e)) && OlderAreStopped(Step(s, e))
  {
    TrimShape(if e.Ensure? then e.conversation else "");
    var s' := Step(s, e);
    forall t: nat | 1 <= t < |s'.channels| ensures ChannelOf(s', t).Open? ==> ChannelOf(s', t).stops == 1 {
      if t < |s.channels| { assert ChannelOf(s, t).Open? ==> ChannelOf(s, t).stops == 1; }
    }
  }

  lemma {:induction false} TicketsRun(s: System, events: seq<Event>, s': System)
    requires CoreMatchesNewest(s) && OlderAreStopped(s) && Leads(s, events, s')
    ensures CoreMatchesNewest(s') && OlderAreStopped(s')
    decreases |events|
  {
    if events != [] {
      TicketsStep(s, events[0]);
      TicketsRun(Step(s, events[0]), events[1..], s');
    }
  }

  /** After any run: every channel that was ever opened is the held one, running, or has been stopped
      exactly once; the held one has the newest ticket and the current conversation. */
  lemma NoChannelLeaks(events: seq<Event>, s: System, t: nat)
    requires Leads(START, events, s) && ChannelOf(s, t).Open?
    ensures if s.core.unlisten == Some(t)
            then ChannelOf(s, t).stops == 0 && t == s.core.generation && s.core.conversationId == Some(ChannelOf(s, t).conversation)
            else ChannelOf(s, t).stops == 1
  {
    TicketsRun(START, events, s);
  }

  /** A conversation that is set is being served: its channel is held, or its request is out and is
      the newest one. */
  lemma CurrentConversationIsServed(events: seq<Event>, s: System)
    requires Leads(START, events, s) && s.core.conversationId.Some?
    ensures s.core.unlisten == Some(s.core.generation) || s.core.pendingPromise == Some(s.core.generation)
    ensures var ch := ChannelOf(s, s.core.generation);
            (ch.Open? || ch.Requested?) && s.core.conversationId == Some(ch.conversation)
  {
    TicketsRun(START, events, s);
  }

  /** An event is applied exactly when it comes from the newest ticket: never from an older one, even
      one of the same conversation. */
  lemma OnlyNewestTicketIsHeard(events: seq<Event>, s: System, t: nat)
    requires Leads(START, events, s) && Enabled(s, Delivers(t))
    ensures Step(s, Delivers(t)).applied == if t == |s.channels| then s.applied + [t] else s.applied
  {
    TicketsRun(START, events, s);
  }

  /** Asking again for the conversation just asked for changes nothing, unless forced. */
  lemma RepeatedEnsureCoalesces(events: seq<Event>, s: System, conversation: string, force: bool)
    requires Leads(START, events, s) && Trim(conversation) != ""
    ensures var once := Step(s, Ensure(conversation, force));
            Step(once, Ensure(conversation, false)) == once
  {
    TicketsRun(START, events, s);
  }

  /** What a call does, after any run. The variables name the conversation asked for, or none if it is
      blank. The call is ignored exactly when it is not forced and asks for the conversation being served.
      Otherwise it takes a new ticket, stops the held channel, and asks for the conversation unless it is
      blank; what is resolved, refused or stopped already stays so. */
  lemma EnsureExactly(events: seq<Event>, s: System, conversation: string, force: bool)
    requires Leads(START, events, s)
    ensures var name, s' := Trim(conversation), Step(s, Ensure(conversation, force));
            && s'.core.conversationId == (if name == "" then None else Some(name))
            && (s' == s <==> !force && s.core.conversationId == Some(name))
            && (s' != s ==>
                  && |s'.channels| == |s.channels| + 1 == s'.core.generation && s'.core.unlisten == None
                  && ChannelOf(s', s'.core.generation) == (if name == "" then NotRequested else Requested(name))
                  && (forall t: nat :: 1 <= t <= |s.channels| ==>
                        if s.core.unlisten == Some(t) then StoppedOnce(ChannelOf(s, t), ChannelOf(s', t))
                        else ChannelOf(s', t) == ChannelOf(s, t)))
  {
    TicketsRun(START, events, s);
    TrimShape(conversation);
  }

  /** An open channel that had not been stopped has been now. */
  predicate StoppedOnce(before: Channel, after: Channel) {
    before.Open? && before.stops == 0 && after == Open(before.conversation, 1)
  }

  /** A channel is asked for exactly when the call takes a new ticket for a conversation. */
  lemma AsksExactly(events: seq<Event>, s: System, conversation: string, force: bool)
    requires Leads(START, events, s)
    ensures Ensured(s.core, conversation, force).1 <==>
              Trim(conversation) != "" && (force || s.core.conversationId != Some(Trim(conversation)))
  {
    TicketsRun(START, events, s);
    TrimShape(conversation);
  }

  /** When a requested channel comes back, it is held if its ticket is the newest and stopped at once if not;
      a refusal of the newest ticket leaves no conversation, and one of an older ticket changes nothing. */
  lemma LateChannelIsStopped(events: seq<Event>, s: System, t: nat)
    requires Leads(START, events, s) && ChannelOf(s, t).Requested?
    ensures var name, newest := ChannelOf(s, t).conversation, t == |s.channels|;
      && Enabled(s, Resolves(t)) && Enabled(s, Rejects(t)) && Enabled(s, Delivers(t))
      && ChannelOf(Step(s, Resolves(t)), t) == Open(name, if newest then 0 else 1)
      && Step(s, Resolves(t)).core == (if newest then Core(t, Some(t), Some(name), None, None) else s.core)
      && ChannelOf(Step(s, Rejects(t)), t) == Refused(name)
      && Step(s, Rejects(t)).core == (if newest then Core(t, None, None, None, None) else s.core)
      && (forall u: nat :: u != t ==> ChannelOf(Step(s, Resolves(t)), u) == ChannelOf(s, u) == ChannelOf(Step(s, Rejects(t)), u))
  {
    TicketsRun(START, events, s);
  }

  /** An open channel may deliver, whether it is held or was stopped. */
  lemma StoppedMayDeliver(s: System, t: nat)
    ensures ChannelOf(s, t).Open? ==> Enabled(s, Delivers(t))
  {
  }
}

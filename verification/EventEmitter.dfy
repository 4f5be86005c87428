/**
 lib/httpapi/events.go: the emitter object.  Each method holds the lock from
 start to end, and is proved to be one step of the state machine in
 EmitterModel.
 */
module EventEmitters {
  import opened Text
  import opened Conversations
  import opened EmitterModel

  class EventEmitter {
    const agentType: string
    const subscriptionBufSize: nat
    var messages: seq<Message>
    var status: AgentStatus
    var screen: string
    var errors: seq<ErrorBody>
    var timeline: seq<TimelineBody>
    var timelineNextId: nat
    var chans: map<nat, Chan>
    var closed: map<nat, Chan>  // closed channels, which their readers may still drain
    var chanIdx: nat
    var log: seq<Event>         // every event broadcast; channels note where in it they began

    ghost var issued: seq<TimelineBody>
    ghost var cleared: nat

    ghost function TheCore(): Core
      reads this
    {
      Core(messages, status, agentType, screen, errors, timeline, timelineNextId, issued, cleared)
    }

    ghost function Abs(): Hub
      reads this
    {
      Hub(TheCore(), subscriptionBufSize, chans, closed, chanIdx, log)
    }

    /** A size of 0 asks for the default of 1024. */
    constructor (agentType: string, size: nat)
      ensures Abs() == NewHub(agentType, if size == 0 then 1024 else size)
    {
      this.agentType := agentType;
      subscriptionBufSize := if size == 0 then 1024 else size;
      messages, status, screen, errors := [], RunningAgent, "", [];
      timeline, timelineNextId := [], 0;
      chans, closed, chanIdx := map[], map[], 0;
      issued, cleared, log := [], 0, [];
    }

    /** The channels are visited in no fixed order; a full one is closed. */
    method NotifyChannels(e: Event)
      modifies this
      ensures Abs() == Notify(old(Abs()), e)
    {
      ghost var before := chans;
      ghost var closedBefore := closed;
      var chanIds := chans.Keys;
      while chanIds != {}
        invariant chanIds <= before.Keys
        invariant TheCore() == old(TheCore()) && chanIdx == old(chanIdx) && log == old(log)
        invariant chans == Reached(before, chanIds, e, subscriptionBufSize)
        invariant closed == closedBefore + Lost(before, chanIds, subscriptionBufSize)
        decreases chanIds
      {
        var id :| id in chanIds;
        VisitOne(before, chanIds, id, e, subscriptionBufSize);
        Offer(id, e);
        chanIds := chanIds - {id};
      }
      AllVisited(old(Abs()), e);
      log := log + [e];
    }

    /** The select with a default: a channel that cannot take the event is closed. */
    method Offer(id: nat, e: Event)
      requires id in chans
      modifies this
      ensures TheCore() == old(TheCore()) && chanIdx == old(chanIdx) && log == old(log)
      ensures Fits(old(chans), id, subscriptionBufSize) ==>
                && chans == old(chans)[id := old(chans)[id].(buffer := old(chans)[id].buffer + [e])]
                && closed == old(closed)
      ensures !Fits(old(chans), id, subscriptionBufSize) ==>
                chans == old(chans) - {id} && closed == old(closed)[id := old(chans)[id]]
    {
      if |chans[id].buffer| < subscriptionBufSize {
        chans := chans[id := chans[id].(buffer := chans[id].buffer + [e])];
      } else {
        UnsubscribeInner(id);
      }
    }

    method UnsubscribeInner(id: nat)
      requires id in chans
      modifies this
      ensures Abs() == old(Abs()).(chans := old(chans) - {id}, dropped := old(closed)[id := old(chans)[id]])
    {
      closed := closed[id := chans[id]];
      chans := chans - {id};
    }

    method EmitMessages(newMessages: seq<Message>)
      modifies this
      ensures Abs() == HubStep(old(Abs()), Emit(Op.EmitMessages(newMessages)))
    {
      ghost var h := Abs();
      var maxLength := if |messages| > |newMessages| then |messages| else |newMessages|;
      var i := 0;
      while i < maxLength
        invariant 0 <= i <= maxLength
        invariant var n := if i <= |newMessages| then i else |newMessages|;
                  Abs() == NotifyAll(h, MessageDiff(old(messages), newMessages, n))
        invariant messages == old(messages)
      {
        var oldMsg := if i < |messages| then messages[i] else ZERO_MESSAGE;
        var newMsg := if i < |newMessages| then newMessages[i] else ZERO_MESSAGE;
        if i < |newMessages| {
          DiffOne(h, messages, newMessages, i);
        }
        if oldMsg != newMsg && i < |newMessages| {
          NotifyChannels(MessageUpdate(newMsg.id, newMsg.role, newMsg.text, newMsg.time));
        }
        i := i + 1;
      }
      ghost var notified := NotifyAll(h, MessageDiff(old(messages), newMessages, |newMessages|));
      assert Abs() == notified;
      messages := newMessages;
      assert Abs() == notified.(core := Apply(h.core, Op.EmitMessages(newMessages))) by {
        NotifyAllFrame(h, MessageDiff(old(messages), newMessages, |newMessages|));
      }
    }

    method EmitStatus(newStatus: Status)
      modifies this
      ensures Abs() == HubStep(old(Abs()), Emit(Op.EmitStatus(newStatus)))
    {
      var newAgentStatus := ConvertStatus(newStatus);
      if status == newAgentStatus {
        return;
      }
      NotifyMore(Abs(), [], StatusChange(newAgentStatus, agentType));
      NotifyChannels(StatusChange(newAgentStatus, agentType));
      status := newAgentStatus;
    }

    method EmitScreen(newScreen: string)
      modifies this
      ensures Abs() == HubStep(old(Abs()), Emit(Op.EmitScreen(newScreen)))
    {
      if screen == newScreen {
        return;
      }
      NotifyMore(Abs(), [], ScreenUpdate(TrimRight(newScreen, IsWhiteSpaceChar)));
      NotifyChannels(ScreenUpdate(TrimRight(newScreen, IsWhiteSpaceChar)));
      screen := newScreen;
    }

    method EmitError(error: ErrorBody)
      modifies this
      ensures Abs() == HubStep(old(Abs()), Emit(Op.EmitError(error)))
    {
      NotifyMore(Abs(), [], ErrorEvent(error));
      errors := errors + [error];
      if |errors| > MAX_STORED_ERRORS {
        errors := errors[|errors| - MAX_STORED_ERRORS..];
      }
      NotifyChannels(ErrorEvent(error));
    }

    method EmitTimelineEvent(event: TimelineEvent)
      modifies this
      ensures Abs() == HubStep(old(Abs()), Emit(EmitTimeline(event)))
    {
      var body := TimelineBody(timelineNextId, event);
      NotifyMore(Abs(), [], TimelineUpdate(body));
      timelineNextId := timelineNextId + 1;
      timeline := timeline + [body];
      issued := issued + [body];
      if |timeline| > MAX_STORED_TIMELINE_EVENTS {
        timeline := timeline[|timeline| - MAX_STORED_TIMELINE_EVENTS..];
      }
      NotifyChannels(TimelineUpdate(body));
    }

    method ClearTimeline()
      modifies this
      ensures Abs() == HubStep(old(Abs()), Emit(Op.ClearTimeline))
    {
      timeline := [];
      cleared := |issued|;
    }

    /** The empty kind matches all. */
    method Timeline(sinceId: int, kind: string) returns (events: seq<TimelineBody>)
      ensures events == TimelineSince(timeline, sinceId, kind)
    {
      events := [];
      for i := 0 to |timeline|
        invariant events == TimelineSince(timeline[..i], sinceId, kind)
      {
        var ev := timeline[i];
        assert timeline[..i + 1][..i] == timeline[..i];
        if ev.id <= sinceId {
          continue;
        }
        if kind != "" && ev.event.kind != kind {
          continue;
        }
        events := events + [ev];
      }
      assert timeline[..|timeline|] == timeline;
    }

    method CurrentStateAsEvents() returns (events: seq<Event>)
      ensures events == StateEvents(TheCore())
    {
      events := [];
      for i := 0 to |messages|
        invariant events == MessageUpdates(messages[..i])
      {
        var msg := messages[i];
        events := events + [MessageUpdate(msg.id, msg.role, msg.text, msg.time)];
      }
      assert messages[..|messages|] == messages;
      events := events + [StatusChange(status, agentType), ScreenUpdate(TrimRight(screen, IsWhiteSpaceChar))];
      ghost var head := events;
      for i := 0 to |errors|
        invariant events == head + ErrorEvents(errors[..i])
      {
        events := events + [ErrorEvent(errors[i])];
        assert ErrorEvents(errors[..i + 1]) == ErrorEvents(errors[..i]) + [ErrorEvent(errors[i])];
      }
      assert errors[..|errors|] == errors;
      head := events;
      var recent := timeline;
      if |recent| > MAX_TIMELINE_REPLAY {
        recent := recent[|recent| - MAX_TIMELINE_REPLAY..];
      }
      for i := 0 to |recent|
        invariant events == head + TimelineUpdates(recent[..i])
      {
        events := events + [TimelineUpdate(recent[i])];
        assert TimelineUpdates(recent[..i + 1]) == TimelineUpdates(recent[..i]) + [TimelineUpdate(recent[i])];
      }
      assert recent[..|recent|] == recent;
    }

    method Subscribe() returns (id: nat, stateEvents: seq<Event>)
      modifies this
      ensures Abs() == HubStep(old(Abs()), Act.Subscribe)
      ensures id == old(chanIdx) && stateEvents == StateEvents(old(TheCore()))
    {
      stateEvents := CurrentStateAsEvents();
      chans := chans[chanIdx := Chan(stateEvents, |log|, [], [])];
      chanIdx := chanIdx + 1;
      id := chanIdx - 1;
    }

    /** The id must still be registered: closing a channel that a full buffer already closed panics. */
    method Unsubscribe(id: nat)
      requires id in chans
      modifies this
      ensures Abs() == HubStep(old(Abs()), Act.Unsubscribe(id))
    {
      UnsubscribeInner(id);
    }
  }

  lemma NotifyMore(h: Hub, es: seq<Event>, e: Event)
    ensures NotifyAll(h, es + [e]) == Notify(NotifyAll(h, es), e)
    ensures NotifyAll(h, [e]) == Notify(h, e)
  {
    assert (es + [e])[..|es|] == es;
    assert [e][..0] == [];
  }

  lemma AllVisited(h: Hub, e: Event)
    ensures Notify(h, e) == h.(chans := Reached(h.chans, {}, e, h.capacity),
                               dropped := h.dropped + Lost(h.chans, {}, h.capacity), log := h.log + [e])
  {
    var t := Notify(h, e);
    assert t.chans == Reached(h.chans, {}, e, h.capacity);
    assert t.dropped == h.dropped + Lost(h.chans, {}, h.capacity);
  }

  lemma DiffOne(h: Hub, before: seq<Message>, after: seq<Message>, i: nat)
    requires i < |after|
    ensures var soFar := NotifyAll(h, MessageDiff(before, after, i));
            NotifyAll(h, MessageDiff(before, after, i + 1))
            == if MessageAt(before, i) != after[i] then Notify(soFar, UpdateOf(after[i])) else soFar
  {
    var diff := MessageDiff(before, after, i);
    assert diff + [] == diff;
    NotifyMore(h, diff, UpdateOf(after[i]));
  }

  /** The open channels once all but those in `left` have been visited. */
  ghost function Reached(before: map<nat, Chan>, left: set<nat>, e: Event, capacity: nat): map<nat, Chan> {
    map id | id in before && (id in left || Fits(before, id, capacity))
      :: if id in left then before[id] else before[id].(buffer := before[id].buffer + [e])
  }

  ghost function Lost(before: map<nat, Chan>, left: set<nat>, capacity: nat): map<nat, Chan> {
    map id | id in before && id !in left && !Fits(before, id, capacity) :: before[id]
  }

  lemma VisitOne(before: map<nat, Chan>, left: set<nat>, id: nat, e: Event, capacity: nat)
    requires id in left && left <= before.Keys
    ensures id in Reached(before, left, e, capacity) && Reached(before, left, e, capacity)[id] == before[id]
    ensures Fits(before, id, capacity) ==>
              && Reached(before, left - {id}, e, capacity)
                 == Reached(before, left, e, capacity)[id := before[id].(buffer := before[id].buffer + [e])]
              && Lost(before, left - {id}, capacity) == Lost(before, left, capacity)
    ensures !Fits(before, id, capacity) ==>
              && Reached(before, left - {id}, e, capacity) == Reached(before, left, e, capacity) - {id}
              && Lost(before, left - {id}, capacity) == Lost(before, left, capacity)[id := before[id]]
  {
  }
}

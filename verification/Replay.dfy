/**
 What subscribers and pollers of the emitter can rely on.  A subscriber folds
 its replayed state and then its channel into a copy of the conversation; a
 poller asks for everything after the largest id it has seen.
 */
module Replay {
  import opened Text
  import opened Conversations
  import opened EmitterModel

  // ------------------------------------------------------- a subscriber's copy

  datatype Client = Client(messages: seq<Message>, status: AgentStatus, screen: string)

  const BLANK := Client([], RunningAgent, "")

  /** The first message with an id, or the end of the list. */
  function IndexOf(messages: seq<Message>, id: int): (i: nat)
    ensures i <= |messages|
  {
    if messages == [] || messages[0].id == id then 0 else 1 + IndexOf(messages[1..], id)
  }

  /** As the chat page does: a message update replaces the message of that id, or is appended. */
  function See(c: Client, e: Event): Client {
    match e
    case MessageUpdate(id, role, text, time) =>
      var m, i := Message(id, text, role, time), IndexOf(c.messages, id);
      if i < |c.messages| then c.(messages := c.messages[i := m]) else c.(messages := c.messages + [m])
    case StatusChange(status, _) => c.(status := status)
    case ScreenUpdate(screen) => c.(screen := screen)
    case ErrorEvent(_) => c
    case TimelineUpdate(_) => c
  }

  function SeeAll(c: Client, es: seq<Event>): Client {
    if es == [] then c else See(SeeAll(c, es[..|es| - 1]), es[|es| - 1])
  }

  /** The emitter's state as a client should have it. */
  function View(c: Core): Client {
    Client(c.messages, c.status, ShownScreen(c.screen))
  }

  lemma {:induction false} SeeConcat(c: Client, a: seq<Event>, b: seq<Event>)
    ensures SeeAll(c, a + b) == SeeAll(SeeAll(c, a), b)
  {
    if b == [] {
      assert a + b == a;
    } else {
      SeeConcat(c, a, b[..|b| - 1]);
      assert (a + b)[..|a + b| - 1] == a + b[..|b| - 1];
    }
  }

  /** Messages that ids tell apart, none of them the zero message. */
  ghost predicate Distinct(messages: seq<Message>) {
    && (forall i :: 0 <= i < |messages| ==> messages[i].role != Unset)
    && (forall i, j :: 0 <= i < j < |messages| ==> messages[i].id != messages[j].id)
  }

  /** The new list is no shorter and has the old one's ids where that had them. */
  ghost predicate Extends(before: seq<Message>, after: seq<Message>) {
    |before| <= |after| && SameIds(before, after)
  }

  ghost predicate SameIds(before: seq<Message>, after: seq<Message>) {
    forall i :: 0 <= i < |before| && i < |after| ==> before[i].id == after[i].id
  }

  lemma {:induction false} IndexOfIs(messages: seq<Message>, id: int, i: nat)
    requires i <= |messages| && (i < |messages| ==> messages[i].id == id)
    requires forall j :: 0 <= j < i ==> messages[j].id != id
    ensures IndexOf(messages, id) == i
  {
    if i > 0 {
      IndexOfIs(messages[1..], id, i - 1);
    }
  }

  lemma {:induction false} IndexOfHasId(messages: seq<Message>, id: int)
    ensures IndexOf(messages, id) < |messages| ==> messages[IndexOf(messages, id)].id == id
  {
    if messages != [] && messages[0].id != id {
      IndexOfHasId(messages[1..], id);
    }
  }

  function Overlay(before: seq<Message>, after: seq<Message>, n: nat): seq<Message>
    requires n <= |after|
  {
    after[..n] + if n < |before| then before[n..] else []
  }

  lemma {:induction false} DiffFold(c: Client, after: seq<Message>, n: nat)
    requires n <= |after| && Distinct(c.messages) && Distinct(after) && SameIds(c.messages, after)
    ensures SeeAll(c, MessageDiff(c.messages, after, n)) == c.(messages := Overlay(c.messages, after, n))
  {
    var before := c.messages;
    if n == 0 {
      assert Overlay(before, after, 0) == before;
    } else {
      DiffFold(c, after, n - 1);
      var diff, m := MessageDiff(before, after, n - 1), after[n - 1];
      DiffFoldStep(c, after, n - 1);
      if MessageAt(before, n - 1) == m {
        assert diff + [] == diff;
      } else {
        SeeSnoc(c, diff, UpdateOf(m));
      }
    }
  }

  lemma SeeSnoc(c: Client, es: seq<Event>, e: Event)
    ensures SeeAll(c, es + [e]) == See(SeeAll(c, es), e)
  {
    assert (es + [e])[..|es|] == es;
  }

  lemma DiffFoldStep(c: Client, after: seq<Message>, i: nat)
    requires i < |after| && Distinct(c.messages) && Distinct(after) && SameIds(c.messages, after)
    ensures var half := c.(messages := Overlay(c.messages, after, i));
      var next := if MessageAt(c.messages, i) == after[i] then half else See(half, UpdateOf(after[i]));
      next == c.(messages := Overlay(c.messages, after, i + 1))
  {
    var half := Overlay(c.messages, after, i);
    OverlayStep(c.messages, after, i);
    assert forall j :: 0 <= j < i ==> half[j] == after[j];
    if i < |c.messages| {
      assert half[i] == c.messages[i];
    }
    IndexOfIs(half, after[i].id, i);
  }

  lemma OverlayStep(before: seq<Message>, after: seq<Message>, i: nat)
    requires i < |after|
    ensures var half := Overlay(before, after, i);
            && |half| == (if i < |before| then |before| else i)
            && Overlay(before, after, i + 1)
               == if MessageAt(before, i) == after[i] && i < |before| then half
                  else if i < |half| then half[i := after[i]] else half + [after[i]]
  {
  }

  /** No update takes a message from a copy or changes its id. */
  lemma {:induction false} CopiesOnlyExtend(c: Client, es: seq<Event>)
    ensures Extends(c.messages, SeeAll(c, es).messages)
  {
    if es != [] {
      CopiesOnlyExtend(c, es[..|es| - 1]);
      var mid, e := SeeAll(c, es[..|es| - 1]), es[|es| - 1];
      if e.MessageUpdate? {
        IndexOfHasId(mid.messages, e.id);
      }
    }
  }

  /**
   A subscriber that follows the broadcasts of an operation stays in step with
   the emitter if and only if the operation hands over no shorter list and
   moves no id: messages it loses are never taken back.
   */
  lemma FollowsUnlessShrunk(c: Core, op: Op)
    requires Distinct(c.messages) && (op.EmitMessages? ==> Distinct(op.messages))
    ensures SeeAll(View(c), EventsOf(c, op)) == View(Apply(c, op))
            <==> (op.EmitMessages? ==> Extends(c.messages, op.messages))
  {
    if op.EmitMessages? {
      CopiesOnlyExtend(View(c), EventsOf(c, op));
      if Extends(c.messages, op.messages) {
        DiffFold(View(c), op.messages, |op.messages|);
        assert Overlay(c.messages, op.messages, |op.messages|) == op.messages;
      }
    } else {
      assert forall e :: SeeAll(View(c), [e]) == See(SeeAll(View(c), []), e);
    }
  }

  lemma {:induction false} SeeMessages(messages: seq<Message>)
    requires Distinct(messages)
    ensures SeeAll(BLANK, MessageUpdates(messages)) == BLANK.(messages := messages)
  {
    if messages != [] {
      var n := |messages| - 1;
      SeeMessages(messages[..n]);
      IndexOfIs(messages[..n], messages[n].id, n);
      assert MessageUpdates(messages)[..n] == MessageUpdates(messages[..n]);
      assert messages == messages[..n] + [messages[n]];
    }
  }

  lemma {:induction false} SeesNothingNew(c: Client, es: seq<Event>)
    requires forall i :: 0 <= i < |es| ==> es[i].ErrorEvent? || es[i].TimelineUpdate?
    ensures SeeAll(c, es) == c
  {
    if es != [] {
      SeesNothingNew(c, es[..|es| - 1]);
    }
  }

  lemma SeeTwo(c: Client, a: Event, b: Event)
    ensures SeeAll(c, [a, b]) == See(See(c, a), b)
  {
    assert [a, b][..1] == [a];
    assert SeeAll(c, [a]) == See(SeeAll(c, [a][..0]), a);
  }

  /** The replayed events alone rebuild the emitter's state. */
  lemma ReplayRebuilds(c: Core)
    requires Distinct(c.messages)
    ensures SeeAll(BLANK, StateEvents(c)) == View(c)
  {
    var head, errors := MessageUpdates(c.messages), ErrorEvents(c.errors);
    var status, screen := StatusChange(c.status, c.agentType), ScreenUpdate(ShownScreen(c.screen));
    var rest := TimelineUpdates(LastN(c.timeline, MAX_TIMELINE_REPLAY));
    SeeMessages(c.messages);
    SeeConcat(BLANK, head, [status, screen]);
    SeeTwo(BLANK.(messages := c.messages), status, screen);
    var two := head + [status, screen];
    assert SeeAll(BLANK, two) == View(c);
    SeeConcat(BLANK, two, errors);
    SeesNothingNew(View(c), errors);
    SeeConcat(BLANK, two + errors, rest);
    SeesNothingNew(View(c), rest);
  }

  // ------------------------------------------------------ channels, on all runs

  /** An open channel has carried every broadcast since its subscription, a closed one a first part of them. */
  ghost predicate Faithful(h: Hub) {
    && (forall id :: id in h.chans ==> id < h.chanIdx && id !in h.dropped)
    && (forall id :: id in h.dropped ==> id < h.chanIdx)
    && (forall id :: id in h.chans ==> CarriesAll(h.chans[id], h.log) && |h.chans[id].buffer| <= h.capacity)
    && (forall id :: id in h.dropped ==> CarriesPrefix(h.dropped[id], h.log))
  }

  ghost predicate CarriesAll(c: Chan, log: seq<Event>) {
    c.since <= |log| && c.received + c.buffer == log[c.since..]
  }

  ghost predicate CarriesPrefix(c: Chan, log: seq<Event>) {
    c.since <= |log| && c.received + c.buffer <= log[c.since..]
  }

  lemma CarryOn(c: Chan, log: seq<Event>, e: Event)
    ensures CarriesAll(c, log) ==> CarriesAll(c.(buffer := c.buffer + [e]), log + [e])
    ensures CarriesAll(c, log) || CarriesPrefix(c, log) ==> CarriesPrefix(c, log + [e])
  {
    if c.since <= |log| {
      assert (log + [e])[c.since..] == log[c.since..] + [e];
      assert c.received + (c.buffer + [e]) == c.received + c.buffer + [e];
    }
  }

  lemma NotifyFaithful(h: Hub, e: Event)
    requires Faithful(h)
    ensures Faithful(Notify(h, e))
  {
    forall id | id in h.chans
      ensures CarriesAll(h.chans[id].(buffer := h.chans[id].buffer + [e]), h.log + [e])
      ensures CarriesPrefix(h.chans[id], h.log + [e])
    {
      CarryOn(h.chans[id], h.log, e);
    }
    forall id | id in h.dropped
      ensures CarriesPrefix(h.dropped[id], h.log + [e])
    {
      CarryOn(h.dropped[id], h.log, e);
    }
  }

  lemma {:induction false} NotifyAllFaithful(h: Hub, es: seq<Event>)
    requires Faithful(h)
    ensures Faithful(NotifyAll(h, es))
  {
    if es != [] {
      NotifyAllFaithful(h, es[..|es| - 1]);
      NotifyFaithful(NotifyAll(h, es[..|es| - 1]), es[|es| - 1]);
    }
  }

  lemma TakeKeeps(c: Chan)
    requires c.buffer != []
    ensures Take(c).received + Take(c).buffer == c.received + c.buffer
  {
    assert c.buffer == [c.buffer[0]] + c.buffer[1..];
  }

  lemma StepFaithful(h: Hub, a: Act)
    requires Faithful(h) && ActEnabled(h, a)
    ensures Faithful(HubStep(h, a))
  {
    match a
    case Emit(op) => NotifyAllFaithful(h, EventsOf(h.core, op));
    case Subscribe =>
    case Unsubscribe(id) =>
      assert CarriesPrefix(h.chans[id], h.log);
    case Receive(id) =>
      if id in h.chans && h.chans[id].buffer != [] {
        TakeKeeps(h.chans[id]);
      } else {
        TakeKeeps(h.dropped[id]);
      }
  }

  lemma HubRunPrefix(h: Hub, acts: seq<Act>)
    requires acts != [] && HubRun(h, acts).Some?
    ensures var n := |acts| - 1;
            && HubRun(h, acts[..n]).Some? && ActEnabled(HubRun(h, acts[..n]).value, acts[n])
            && HubRun(h, acts).value == HubStep(HubRun(h, acts[..n]).value, acts[n])
  {
  }

  lemma {:induction false} RunFaithful(h: Hub, acts: seq<Act>)
    requires Faithful(h) && HubRun(h, acts).Some?
    ensures Faithful(HubRun(h, acts).value)
  {
    if acts != [] {
      HubRunPrefix(h, acts);
      RunFaithful(h, acts[..|acts| - 1]);
      StepFaithful(HubRun(h, acts[..|acts| - 1]).value, acts[|acts| - 1]);
    }
  }

  // -------------------------------------------- subscribers agree with the core

  /** Lists handed to EmitMessages extend the one before: messages change in place or are added. */
  ghost predicate Grows(h: Hub, a: Act) {
    a.Emit? && a.op.EmitMessages? ==> Distinct(a.op.messages) && Extends(h.core.messages, a.op.messages)
  }

  ghost predicate GrowingRun(h: Hub, acts: seq<Act>) {
    acts == [] ||
    var before := acts[..|acts| - 1];
    GrowingRun(h, before) && (HubRun(h, before).Some? ==> Grows(HubRun(h, before).value, acts[|acts| - 1]))
  }

  /** Folding a subscription's replay and every broadcast since gives the current state. */
  ghost predicate InStep(c: Chan, h: Hub) {
    c.since <= |h.log| && SeeAll(SeeAll(BLANK, c.replay), h.log[c.since..]) == View(h.core)
  }

  ghost predicate AllInStep(h: Hub) {
    && Distinct(h.core.messages)
    && (forall id :: id in h.chans ==> InStep(h.chans[id], h))
  }

  /** A subscription in step stays in step exactly when the operation extends the list. */
  lemma StaysInStep(c: Chan, h: Hub, t: Hub, op: Op)
    requires InStep(c, h) && Distinct(h.core.messages) && (op.EmitMessages? ==> Distinct(op.messages))
    requires t.log == h.log + EventsOf(h.core, op) && t.core == Apply(h.core, op)
    ensures InStep(c, t) <==> Grows(h, Emit(op))
  {
    assert t.log[c.since..] == h.log[c.since..] + EventsOf(h.core, op);
    SeeConcat(SeeAll(BLANK, c.replay), h.log[c.since..], EventsOf(h.core, op));
    FollowsUnlessShrunk(h.core, op);
  }

  /** A broadcast changes no subscription but by adding to its buffer. */
  lemma {:induction false} NotifyAllKeepsOrigins(h: Hub, es: seq<Event>)
    ensures forall id :: id in NotifyAll(h, es).chans ==>
              id in h.chans && NotifyAll(h, es).chans[id] == h.chans[id].(buffer := NotifyAll(h, es).chans[id].buffer)
  {
    if es != [] {
      NotifyAllKeepsOrigins(h, es[..|es| - 1]);
    }
  }

  lemma EmitKeepsInStep(h: Hub, op: Op)
    requires AllInStep(h) && Grows(h, Emit(op))
    ensures AllInStep(HubStep(h, Emit(op)))
  {
    var es := EventsOf(h.core, op);
    var t := HubStep(h, Emit(op));
    NotifyAllFrame(h, es);
    NotifyAllKeepsOrigins(h, es);
    forall id | id in t.chans
      ensures InStep(t.chans[id], t)
    {
      StaysInStep(h.chans[id], h, t, op);
    }
  }

  lemma StepInStep(h: Hub, a: Act)
    requires AllInStep(h) && ActEnabled(h, a) && Grows(h, a)
    ensures AllInStep(HubStep(h, a))
  {
    match a
    case Emit(op) => EmitKeepsInStep(h, op);
    case Subscribe =>
      ReplayRebuilds(h.core);
      assert h.log[|h.log|..] == [];
    case Unsubscribe(id) =>
    case Receive(id) =>
  }

  lemma {:induction false} RunInStep(h: Hub, acts: seq<Act>)
    requires AllInStep(h) && HubRun(h, acts).Some? && GrowingRun(h, acts)
    ensures AllInStep(HubRun(h, acts).value)
  {
    if acts != [] {
      var n := |acts| - 1;
      HubRunPrefix(h, acts);
      RunInStep(h, acts[..n]);
      StepInStep(HubRun(h, acts[..n]).value, acts[n]);
    }
  }

  /**
   Replay plus live: at any moment of any run whose lists grow, what an open
   subscription was given and has carried folds to the emitter's current
   messages, status and screen.  On every run, a closed one has carried a
   first part of the broadcasts.
   */
  lemma ReplayPlusLive(agentType: string, capacity: nat, acts: seq<Act>, id: nat)
    requires HubRun(NewHub(agentType, capacity), acts).Some?
    ensures var h := HubRun(NewHub(agentType, capacity), acts).value;
            && (id in h.chans && GrowingRun(NewHub(agentType, capacity), acts) ==>
                  var c := h.chans[id]; SeeAll(BLANK, c.replay + c.received + c.buffer) == View(h.core))
            && (id in h.dropped ==>
                  var c := h.dropped[id]; c.since <= |h.log| && c.received + c.buffer <= h.log[c.since..])
            && (id in h.chans ==> |h.chans[id].buffer| <= capacity)
  {
    var h0 := NewHub(agentType, capacity);
    RunFaithful(h0, acts);
    RunCapacity(h0, acts);
    var h := HubRun(h0, acts).value;
    if id in h.chans && GrowingRun(h0, acts) {
      RunInStep(h0, acts);
      var c := h.chans[id];
      SeeConcat(BLANK, c.replay, c.received + c.buffer);
      assert c.replay + c.received + c.buffer == c.replay + (c.received + c.buffer);
    }
  }

  lemma {:induction false} RunCapacity(h: Hub, acts: seq<Act>)
    requires HubRun(h, acts).Some?
    ensures HubRun(h, acts).value.capacity == h.capacity
  {
    if acts != [] {
      HubRunPrefix(h, acts);
      RunCapacity(h, acts[..|acts| - 1]);
      var mid, a := HubRun(h, acts[..|acts| - 1]).value, acts[|acts| - 1];
      if a.Emit? {
        NotifyAllFrame(mid, EventsOf(mid.core, a.op));
      }
    }
  }
}

/**
 lib/httpapi/events.go as a state machine: what the emitter stores, what it
 broadcasts, and the bounded channels it broadcasts into.
 */
module EmitterModel {
  import opened Text
  import opened Conversations

  datatype AgentStatus = RunningAgent | StableAgent

  function ConvertStatus(status: Status): AgentStatus {
    match status
    case Initializing => RunningAgent
    case Changing => RunningAgent
    case Stable => StableAgent
  }

  /** An event of an agent's transcript, before the emitter numbers it. */
  datatype TimelineEvent = TimelineEvent(
    kind: string, role: string, sessionId: string, content: string,
    toolName: string, toolInput: string, toolUseId: string, sourceId: string)

  datatype TimelineBody = TimelineBody(id: int, event: TimelineEvent)

  datatype ErrorBody = ErrorBody(text: string, level: string, time: int)

  datatype Event =
    | MessageUpdate(id: int, role: Role, text: string, time: int)
    | StatusChange(status: AgentStatus, agentType: string)
    | ScreenUpdate(screen: string)
    | ErrorEvent(error: ErrorBody)
    | TimelineUpdate(body: TimelineBody)

  const MAX_STORED_ERRORS := 100
  const MAX_STORED_TIMELINE_EVENTS := 10000
  const MAX_TIMELINE_REPLAY := 500

  datatype Core = Core(
    messages: seq<Message>,
    status: AgentStatus,
    agentType: string,
    screen: string,
    errors: seq<ErrorBody>,
    timeline: seq<TimelineBody>,
    nextId: nat,
    issued: seq<TimelineBody>,   // every timeline event ever numbered
    cleared: nat)                // how many had been when the timeline was last cleared

  datatype Op =
    | EmitMessages(messages: seq<Message>)
    | EmitStatus(status: Status)
    | EmitScreen(screen: string)
    | EmitError(error: ErrorBody)
    | EmitTimeline(event: TimelineEvent)
    | ClearTimeline

  function NewCore(agentType: string): Core {
    Core([], RunningAgent, agentType, "", [], [], 0, [], 0)
  }

  function UpdateOf(m: Message): Event {
    MessageUpdate(m.id, m.role, m.text, m.time)
  }

  function MessageAt(messages: seq<Message>, i: nat): Message {
    if i < |messages| then messages[i] else ZERO_MESSAGE
  }

  /** The updates for the first `n` positions of a new list: one for each message that differs. */
  function MessageDiff(before: seq<Message>, after: seq<Message>, n: nat): seq<Event>
    requires n <= |after|
  {
    if n == 0 then []
    else
      MessageDiff(before, after, n - 1)
      + if MessageAt(before, n - 1) != after[n - 1] then [UpdateOf(after[n - 1])] else []
  }

  function ShownScreen(screen: string): string {
    TrimRight(screen, IsWhiteSpaceChar)
  }

  /** What an operation broadcasts. */
  function EventsOf(c: Core, op: Op): seq<Event> {
    match op
    case EmitMessages(messages) => MessageDiff(c.messages, messages, |messages|)
    case EmitStatus(status) =>
      if c.status == ConvertStatus(status) then [] else [StatusChange(ConvertStatus(status), c.agentType)]
    case EmitScreen(screen) => if c.screen == screen then [] else [ScreenUpdate(ShownScreen(screen))]
    case EmitError(error) => [ErrorEvent(error)]
    case EmitTimeline(event) => [TimelineUpdate(TimelineBody(c.nextId, event))]
    case ClearTimeline => []
  }

  /** What an operation stores. */
  function Apply(c: Core, op: Op): Core {
    match op
    case EmitMessages(messages) => c.(messages := messages)
    case EmitStatus(status) => c.(status := ConvertStatus(status))
    case EmitScreen(screen) => c.(screen := screen)
    case EmitError(error) => c.(errors := LastN(c.errors + [error], MAX_STORED_ERRORS))
    case EmitTimeline(event) =>
      var body := TimelineBody(c.nextId, event);
      c.(timeline := LastN(c.timeline + [body], MAX_STORED_TIMELINE_EVENTS),
         nextId := c.nextId + 1, issued := c.issued + [body])
    case ClearTimeline => c.(timeline := [], cleared := |c.issued|)
  }

  /** The events that let a new subscriber rebuild the current state. */
  function StateEvents(c: Core): seq<Event> {
    MessageUpdates(c.messages)
    + [StatusChange(c.status, c.agentType), ScreenUpdate(ShownScreen(c.screen))]
    + ErrorEvents(c.errors)
    + TimelineUpdates(LastN(c.timeline, MAX_TIMELINE_REPLAY))
  }

  function MessageUpdates(messages: seq<Message>): seq<Event> {
    seq(|messages|, i requires 0 <= i < |messages| => UpdateOf(messages[i]))
  }

  function ErrorEvents(errors: seq<ErrorBody>): seq<Event> {
    seq(|errors|, i requires 0 <= i < |errors| => ErrorEvent(errors[i]))
  }

  function TimelineUpdates(bodies: seq<TimelineBody>): seq<Event> {
    seq(|bodies|, i requires 0 <= i < |bodies| => TimelineUpdate(bodies[i]))
  }

  /** The stored timeline after `sinceId`, of one kind or, for the empty kind, of all. */
  function TimelineSince(bodies: seq<TimelineBody>, sinceId: int, kind: string): seq<TimelineBody> {
    if bodies == [] then []
    else
      var n := |bodies| - 1;
      var last := bodies[n];
      TimelineSince(bodies[..n], sinceId, kind)
      + if last.id > sinceId && (kind == "" || last.event.kind == kind) then [last] else []
  }

  // ---------------------------------------------------------------- channels

  /** A subscription: its replayed state, what its reader has taken, and what waits in the channel. */
  datatype Chan = Chan(replay: seq<Event>, since: nat, received: seq<Event>, buffer: seq<Event>)

  datatype Hub = Hub(
    core: Core,
    capacity: nat,
    chans: map<nat, Chan>,    // open channels
    dropped: map<nat, Chan>,  // closed channels, which a reader may still drain
    chanIdx: nat,
    log: seq<Event>)          // every event broadcast so far

  datatype Act = Emit(op: Op) | Subscribe | Unsubscribe(id: nat) | Receive(id: nat)

  function NewHub(agentType: string, capacity: nat): Hub {
    Hub(NewCore(agentType), capacity, map[], map[], 0, [])
  }

  function Fits(chans: map<nat, Chan>, id: nat, capacity: nat): bool
    requires id in chans
  {
    |chans[id].buffer| < capacity
  }

  /** One event to every open channel; a channel that is full is closed instead. */
  function Notify(h: Hub, e: Event): Hub {
    h.(chans := map id | id in h.chans && Fits(h.chans, id, h.capacity)
                :: h.chans[id].(buffer := h.chans[id].buffer + [e]),
       dropped := h.dropped + map id | id in h.chans && !Fits(h.chans, id, h.capacity) :: h.chans[id],
       log := h.log + [e])
  }

  function NotifyAll(h: Hub, es: seq<Event>): Hub {
    if es == [] then h else Notify(NotifyAll(h, es[..|es| - 1]), es[|es| - 1])
  }

  lemma {:induction false} NotifyAllFrame(h: Hub, es: seq<Event>)
    ensures var t := NotifyAll(h, es);
            t.log == h.log + es && t.core == h.core && t.chanIdx == h.chanIdx && t.capacity == h.capacity
  {
    if es != [] {
      NotifyAllFrame(h, es[..|es| - 1]);
    }
  }

  predicate ActEnabled(h: Hub, a: Act) {
    match a
    case Emit(_) => true
    case Subscribe => true
    case Unsubscribe(id) => id in h.chans  // closing a missing channel panics in the source
    case Receive(id) => (id in h.chans && h.chans[id].buffer != []) || (id in h.dropped && h.dropped[id].buffer != [])
  }

  function Take(c: Chan): Chan
    requires c.buffer != []
  {
    c.(received := c.received + [c.buffer[0]], buffer := c.buffer[1..])
  }

  function HubStep(h: Hub, a: Act): Hub
    requires ActEnabled(h, a)
  {
    match a
    case Emit(op) => NotifyAll(h, EventsOf(h.core, op)).(core := Apply(h.core, op))
    case Subscribe =>
      h.(chans := h.chans[h.chanIdx := Chan(StateEvents(h.core), |h.log|, [], [])], chanIdx := h.chanIdx + 1)
    case Unsubscribe(id) => h.(chans := h.chans - {id}, dropped := h.dropped[id := h.chans[id]])
    case Receive(id) =>
      if id in h.chans && h.chans[id].buffer != [] then h.(chans := h.chans[id := Take(h.chans[id])])
      else h.(dropped := h.dropped[id := Take(h.dropped[id])])
  }

  function HubRun(h: Hub, acts: seq<Act>): Option<Hub> {
    if acts == [] then Some(h)
    else match HubRun(h, acts[..|acts| - 1])
      case None => None
      case Some(mid) =>
        var a := acts[|acts| - 1];
        if ActEnabled(mid, a) then Some(HubStep(mid, a)) else None
  }
}

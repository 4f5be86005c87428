/**
 The numbered timeline of lib/httpapi/events.go: consecutive ids across clears
 and overflow, pollers that miss nothing, live subscribers without a gap.
 */
module Timeline {
  import opened Text
  import opened Conversations
  import opened EmitterModel
  import opened Replay

  // -------------------------------------------------------- what is retained

  /** Ids count the events issued; what is stored is the last of those issued since the last clear. */
  ghost predicate TimelineKept(c: Core) {
    && c.nextId == |c.issued|
    && (forall i :: 0 <= i < |c.issued| ==> c.issued[i].id == i)
    && c.cleared <= |c.issued|
    && c.timeline == LastN(c.issued[c.cleared..], MAX_STORED_TIMELINE_EVENTS)
  }

  lemma LastNOfLastN<T>(s: seq<T>, x: T, n: nat)
    requires n > 0
    ensures LastN(LastN(s, n) + [x], n) == LastN(s + [x], n)
  {
  }

  lemma ApplyKeepsTimeline(c: Core, op: Op)
    requires TimelineKept(c)
    ensures TimelineKept(Apply(c, op)) && c.issued <= Apply(c, op).issued
  {
    if op.EmitTimeline? {
      var body := TimelineBody(c.nextId, op.event);
      LastNOfLastN(c.issued[c.cleared..], body, MAX_STORED_TIMELINE_EVENTS);
      assert (c.issued + [body])[c.cleared..] == c.issued[c.cleared..] + [body];
    }
  }

  /** The stored events from id `p` on are all those issued from `p` on, if none was cleared or pushed out. */
  lemma RetainedFrom(c: Core, p: nat)
    requires TimelineKept(c) && c.cleared <= p <= c.nextId && c.nextId - p <= MAX_STORED_TIMELINE_EVENTS
    ensures |c.timeline| >= c.nextId - p
    ensures c.timeline[|c.timeline| - (c.nextId - p)..] == c.issued[p..]
  {
  }

  lemma StoredIds(c: Core)
    requires TimelineKept(c)
    ensures forall i :: 0 <= i < |c.timeline| ==> c.timeline[i].id == c.nextId - |c.timeline| + i
  {
  }

  lemma {:induction false} SinceEverything(bodies: seq<TimelineBody>, sinceId: int)
    requires forall i :: 0 <= i < |bodies| ==> bodies[i].id > sinceId
    ensures TimelineSince(bodies, sinceId, "") == bodies
  {
    if bodies != [] {
      var n := |bodies| - 1;
      SinceEverything(bodies[..n], sinceId);
      assert bodies == bodies[..n] + [bodies[n]];
    }
  }

  lemma {:induction false} SinceNothing(bodies: seq<TimelineBody>, sinceId: int, kind: string)
    requires forall i :: 0 <= i < |bodies| ==> bodies[i].id <= sinceId
    ensures TimelineSince(bodies, sinceId, kind) == []
  {
    if bodies != [] {
      SinceNothing(bodies[..|bodies| - 1], sinceId, kind);
    }
  }

  lemma {:induction false} SinceConcat(a: seq<TimelineBody>, b: seq<TimelineBody>, sinceId: int, kind: string)
    ensures TimelineSince(a + b, sinceId, kind) == TimelineSince(a, sinceId, kind) + TimelineSince(b, sinceId, kind)
  {
    if b == [] {
      assert a + b == a;
    } else {
      var n := |b| - 1;
      SinceConcat(a, b[..n], sinceId, kind);
      assert (a + b)[..|a + b| - 1] == a + b[..n];
    }
  }

  ghost predicate IdsRise(bodies: seq<TimelineBody>) {
    forall i, j :: 0 <= i < j < |bodies| ==> bodies[i].id < bodies[j].id
  }

  predicate Wanted(b: TimelineBody, sinceId: int, kind: string) {
    sinceId < b.id && (kind == "" || b.event.kind == kind)
  }

  /** What is asked for is exactly what is answered ... */
  lemma {:induction false} SinceSelects(bodies: seq<TimelineBody>, sinceId: int, kind: string)
    ensures forall b :: b in TimelineSince(bodies, sinceId, kind) <==> b in bodies && Wanted(b, sinceId, kind)
  {
    if bodies != [] {
      var n := |bodies| - 1;
      SinceSelects(bodies[..n], sinceId, kind);
      assert bodies == bodies[..n] + [bodies[n]];
    }
  }

  /** A numbered event as it was issued. */
  ghost predicate Genuine(b: TimelineBody, issued: seq<TimelineBody>) {
    0 <= b.id < |issued| && issued[b.id] == b
  }

  ghost predicate AllGenuine(bodies: seq<TimelineBody>, issued: seq<TimelineBody>) {
    forall i :: 0 <= i < |bodies| ==> Genuine(bodies[i], issued)
  }

  lemma RiseFewer(bodies: seq<TimelineBody>, top: int)
    requires bodies != [] && IdsRise(bodies) && forall i :: 0 <= i < |bodies| ==> bodies[i].id <= top
    ensures var n := |bodies| - 1;
      IdsRise(bodies[..n]) && bodies[n].id <= top && forall i :: 0 <= i < n ==> bodies[..n][i].id <= bodies[n].id - 1
  {
  }

  /** Rising ids above one id and up to another. */
  ghost predicate RisesWithin(bodies: seq<TimelineBody>, above: int, top: int) {
    IdsRise(bodies) && forall i :: 0 <= i < |bodies| ==> above < bodies[i].id <= top
  }

  lemma OneMoreRises(bodies: seq<TimelineBody>, b: TimelineBody, above: int, top: int)
    requires RisesWithin(bodies, above, b.id - 1) && b.id <= top
    ensures RisesWithin(bodies, above, top)
    ensures above < b.id ==> RisesWithin(bodies + [b], above, top)
  {
  }

  /** ... in its order ... */
  lemma {:induction false} SinceRises(bodies: seq<TimelineBody>, sinceId: int, kind: string, top: int)
    requires IdsRise(bodies) && forall i :: 0 <= i < |bodies| ==> bodies[i].id <= top
    ensures RisesWithin(TimelineSince(bodies, sinceId, kind), sinceId, top)
  {
    if bodies != [] {
      var n := |bodies| - 1;
      var earlier := TimelineSince(bodies[..n], sinceId, kind);
      RiseFewer(bodies, top);
      SinceRises(bodies[..n], sinceId, kind, bodies[n].id - 1);
      OneMoreRises(earlier, bodies[n], sinceId, top);
      assert earlier + [] == earlier;
    }
  }

  /** ... and as issued. */
  lemma {:induction false} SinceGenuine(bodies: seq<TimelineBody>, sinceId: int, kind: string, issued: seq<TimelineBody>)
    requires AllGenuine(bodies, issued)
    ensures AllGenuine(TimelineSince(bodies, sinceId, kind), issued)
  {
    if bodies != [] {
      SinceGenuine(bodies[..|bodies| - 1], sinceId, kind, issued);
    }
  }

  lemma TimelineRises(c: Core)
    requires TimelineKept(c)
    ensures IdsRise(c.timeline) && AllGenuine(c.timeline, c.issued)
  {
    StoredIds(c);
  }

  // ------------------------------------------------------------------ pollers

  /** What the emitter does, and when the poller asks. */
  datatype PollStep = Do(op: Op) | Poll

  /** A poller remembers the largest id it has seen. */
  datatype Poller = Poller(core: Core, since: int, seen: seq<TimelineBody>)

  function PollerStep(p: Poller, s: PollStep): Poller {
    match s
    case Do(op) => p.(core := Apply(p.core, op))
    case Poll =>
      var news := TimelineSince(p.core.timeline, p.since, "");
      p.(since := if news == [] then p.since else news[|news| - 1].id, seen := p.seen + news)
  }

  function PollerRun(p: Poller, steps: seq<PollStep>): Poller {
    if steps == [] then p else PollerStep(PollerRun(p, steps[..|steps| - 1]), steps[|steps| - 1])
  }

  ghost predicate PollerSane(p: Poller) {
    && TimelineKept(p.core) && IdsRise(p.seen) && AllGenuine(p.seen, p.core.issued)
    && (forall i :: 0 <= i < |p.seen| ==> p.seen[i].id <= p.since)
    && p.since < p.core.nextId
  }

  lemma PollKeepsSane(p: Poller)
    requires PollerSane(p)
    ensures PollerSane(PollerStep(p, Poll))
  {
    TimelineRises(p.core);
    SinceRises(p.core.timeline, p.since, "", p.core.nextId - 1);
    SinceGenuine(p.core.timeline, p.since, "", p.core.issued);
  }

  /** On every run a poller sees strictly rising ids, hence no event twice. */
  lemma {:induction false} PollerNeverRepeats(p: Poller, steps: seq<PollStep>)
    requires PollerSane(p)
    ensures PollerSane(PollerRun(p, steps)) && IdsRise(PollerRun(p, steps).seen)
  {
    if steps != [] {
      PollerNeverRepeats(p, steps[..|steps| - 1]);
      var mid, s := PollerRun(p, steps[..|steps| - 1]), steps[|steps| - 1];
      if s.Do? {
        ApplyKeepsTimeline(mid.core, s.op);
      } else {
        PollKeepsSane(mid);
      }
    }
  }

  function EmitAll(c: Core, ops: seq<Op>): Core {
    if ops == [] then c else Apply(EmitAll(c, ops[..|ops| - 1]), ops[|ops| - 1])
  }

  function TimelineEmits(ops: seq<Op>): nat {
    if ops == [] then 0 else TimelineEmits(ops[..|ops| - 1]) + if ops[|ops| - 1].EmitTimeline? then 1 else 0
  }

  lemma {:induction false} EmitAllKeeps(c: Core, ops: seq<Op>)
    requires TimelineKept(c) && forall k :: 0 <= k < |ops| ==> !ops[k].ClearTimeline?
    ensures var t := EmitAll(c, ops);
            TimelineKept(t) && c.issued <= t.issued && t.cleared == c.cleared && t.nextId == c.nextId + TimelineEmits(ops)
  {
    if ops != [] {
      EmitAllKeeps(c, ops[..|ops| - 1]);
      ApplyKeepsTimeline(EmitAll(c, ops[..|ops| - 1]), ops[|ops| - 1]);
    }
  }

  /** One round: some operations, then a poll. */
  function Rounds(p: Poller, rounds: seq<seq<Op>>): Poller {
    if rounds == [] then p
    else
      var q := Rounds(p, rounds[..|rounds| - 1]);
      PollerStep(q.(core := EmitAll(q.core, rounds[|rounds| - 1])), Poll)
  }

  /** At most 10000 events between two polls, and none of them cleared. */
  ghost predicate Unhurried(rounds: seq<seq<Op>>) {
    forall i :: 0 <= i < |rounds| ==>
      TimelineEmits(rounds[i]) <= MAX_STORED_TIMELINE_EVENTS
      && forall k :: 0 <= k < |rounds[i]| ==> !rounds[i][k].ClearTimeline?
  }

  lemma TimelineCatchesUp(c: Core, from: nat)
    requires TimelineKept(c) && c.cleared <= from <= c.nextId && c.nextId - from <= MAX_STORED_TIMELINE_EVENTS
    ensures TimelineSince(c.timeline, from - 1, "") == c.issued[from..]
  {
    RetainedFrom(c, from);
    StoredIds(c);
    CatchUp(c.timeline, c.nextId - |c.timeline|, from);
  }

  lemma CatchUp(bodies: seq<TimelineBody>, lo: int, from: int)
    requires forall i :: 0 <= i < |bodies| ==> bodies[i].id == lo + i
    requires lo <= from <= lo + |bodies|
    ensures TimelineSince(bodies, from - 1, "") == bodies[from - lo..]
  {
    var cut := from - lo;
    EarlierAndLater(bodies, lo, cut);
    SinceNothing(bodies[..cut], from - 1, "");
    SinceEverything(bodies[cut..], from - 1);
    SinceConcat(bodies[..cut], bodies[cut..], from - 1, "");
    assert bodies == bodies[..cut] + bodies[cut..];
  }

  lemma EarlierAndLater(bodies: seq<TimelineBody>, lo: int, cut: nat)
    requires cut <= |bodies| && forall i :: 0 <= i < |bodies| ==> bodies[i].id == lo + i
    ensures forall i :: 0 <= i < cut ==> bodies[..cut][i].id <= lo + cut - 1
    ensures forall i :: 0 <= i < |bodies[cut..]| ==> bodies[cut..][i].id > lo + cut - 1
  {
  }

  ghost predicate CaughtUp(p: Poller, start: Poller) {
    && TimelineKept(p.core) && p.core.cleared == start.core.cleared
    && start.core.nextId <= p.core.nextId && p.since == p.core.nextId - 1
    && p.seen == start.seen + p.core.issued[start.core.nextId..]
  }

  lemma IssuedSince(earlier: seq<TimelineBody>, later: seq<TimelineBody>, from: nat)
    requires from <= |earlier| && earlier <= later
    ensures later[from..] == earlier[from..] + later[|earlier|..]
  {
  }

  lemma RoundCatchesUp(q: Poller, start: Poller, ops: seq<Op>)
    requires CaughtUp(q, start) && start.core.cleared <= start.core.nextId
    requires TimelineEmits(ops) <= MAX_STORED_TIMELINE_EVENTS && forall k :: 0 <= k < |ops| ==> !ops[k].ClearTimeline?
    ensures CaughtUp(PollerStep(q.(core := EmitAll(q.core, ops)), Poll), start)
  {
    EmitAllKeeps(q.core, ops);
    PollCatchesUp(q.(core := EmitAll(q.core, ops)), q.core.nextId);
    SeenThrough(q, EmitAll(q.core, ops), start);
  }

  lemma SeenThrough(q: Poller, c: Core, start: Poller)
    requires CaughtUp(q, start) && TimelineKept(c)
    requires q.core.issued <= c.issued && c.cleared == start.core.cleared
    ensures CaughtUp(Poller(c, c.nextId - 1, q.seen + c.issued[q.core.nextId..]), start)
  {
    var from := start.core.nextId;
    IssuedSince(q.core.issued, c.issued, from);
    assert start.seen + q.core.issued[from..] + c.issued[q.core.nextId..] == start.seen + c.issued[from..];
  }

  lemma PollCatchesUp(p: Poller, from: nat)
    requires TimelineKept(p.core) && p.core.cleared <= from <= p.core.nextId && p.since == from - 1
    requires p.core.nextId - from <= MAX_STORED_TIMELINE_EVENTS
    ensures PollerStep(p, Poll) == Poller(p.core, p.core.nextId - 1, p.seen + p.core.issued[from..])
  {
    TimelineCatchesUp(p.core, from);
    LatestIssued(p.core, from);
  }

  lemma LatestIssued(c: Core, from: nat)
    requires TimelineKept(c) && from <= c.nextId
    ensures var news := c.issued[from..];
            if news == [] then from == c.nextId else news[|news| - 1].id == c.nextId - 1
  {
  }

  /** An unhurried poller that is up to date stays so: it sees every event issued, each once, in order. */
  lemma {:induction false} PollerMissesNothing(p: Poller, rounds: seq<seq<Op>>)
    requires TimelineKept(p.core) && p.since == p.core.nextId - 1 && Unhurried(rounds)
    ensures CaughtUp(Rounds(p, rounds), p)
  {
    if rounds == [] {
      assert p.core.issued[p.core.nextId..] == [];
    } else {
      var n := |rounds| - 1;
      PollerMissesNothing(p, rounds[..n]);
      RoundCatchesUp(Rounds(p, rounds[..n]), p, rounds[n]);
    }
  }

  // --------------------------------------------------------- live subscribers

  function TimelineIds(es: seq<Event>): seq<int> {
    if es == [] then []
    else TimelineIds(es[..|es| - 1]) + match es[|es| - 1] case TimelineUpdate(body) => [body.id] case _ => []
  }

  /** The ids from `lo` up to but not including `hi`. */
  function Interval(lo: int, hi: int): seq<int>
    requires lo <= hi
  {
    seq(hi - lo, i => lo + i)
  }

  ghost predicate IsInterval(ids: seq<int>, lo: int) {
    ids == Interval(lo, lo + |ids|)
  }

  lemma {:induction false} TimelineIdsConcat(a: seq<Event>, b: seq<Event>)
    ensures TimelineIds(a + b) == TimelineIds(a) + TimelineIds(b)
  {
    if b == [] {
      assert a + b == a;
    } else {
      TimelineIdsConcat(a, b[..|b| - 1]);
      assert (a + b)[..|a + b| - 1] == a + b[..|b| - 1];
    }
  }

  lemma {:induction false} OtherEventsHaveNoIds(es: seq<Event>)
    requires forall i :: 0 <= i < |es| ==> !es[i].TimelineUpdate?
    ensures TimelineIds(es) == []
  {
    if es != [] {
      OtherEventsHaveNoIds(es[..|es| - 1]);
    }
  }

  lemma {:induction false} TimelineUpdateIds(bodies: seq<TimelineBody>, lo: int)
    requires forall i :: 0 <= i < |bodies| ==> bodies[i].id == lo + i
    ensures TimelineIds(TimelineUpdates(bodies)) == Interval(lo, lo + |bodies|)
  {
    if bodies != [] {
      var n := |bodies| - 1;
      TimelineUpdateIds(bodies[..n], lo);
      assert TimelineUpdates(bodies)[..n] == TimelineUpdates(bodies[..n]);
    }
  }

  lemma HeadHasNoIds(c: Core, head: seq<Event>)
    requires head == MessageUpdates(c.messages)
                     + [StatusChange(c.status, c.agentType), ScreenUpdate(ShownScreen(c.screen))] + ErrorEvents(c.errors)
    ensures TimelineIds(head) == []
  {
    OtherEventsHaveNoIds(head);
  }

  lemma ReplayedIds(c: Core)
    requires TimelineKept(c)
    ensures var k := |LastN(c.timeline, MAX_TIMELINE_REPLAY)|;
            k <= c.nextId && TimelineIds(StateEvents(c)) == Interval(c.nextId - k, c.nextId)
  {
    var recent := LastN(c.timeline, MAX_TIMELINE_REPLAY);
    var head := MessageUpdates(c.messages) + [StatusChange(c.status, c.agentType), ScreenUpdate(ShownScreen(c.screen))]
                + ErrorEvents(c.errors);
    HeadHasNoIds(c, head);
    TimelineIdsConcat(head, TimelineUpdates(recent));
    TimelineUpdateIds(recent, c.nextId - |recent|);
  }

  lemma {:induction false} MessageDiffHasNoIds(before: seq<Message>, after: seq<Message>, n: nat)
    requires n <= |after|
    ensures TimelineIds(MessageDiff(before, after, n)) == []
  {
    if n > 0 {
      MessageDiffHasNoIds(before, after, n - 1);
      var diff := MessageDiff(before, after, n - 1);
      assert diff + [] == diff;
      assert (diff + [UpdateOf(after[n - 1])])[..|diff|] == diff;
    }
  }

  lemma OpIds(c: Core, op: Op)
    ensures TimelineIds(EventsOf(c, op)) == if op.EmitTimeline? then [c.nextId as int] else []
  {
    if op.EmitMessages? {
      MessageDiffHasNoIds(c.messages, op.messages, |op.messages|);
    } else if EventsOf(c, op) != [] {
      assert EventsOf(c, op)[..0] == [];
    }
  }

  /** The log carries every id once, in order; each subscription starts where its replay ends. */
  ghost predicate LogNumbered(h: Hub) {
    && TimelineKept(h.core)
    && TimelineIds(h.log) == Interval(0, h.core.nextId)
    && AllReplaysMeet(h)
  }

  ghost predicate AllReplaysMeet(h: Hub) {
    && (forall id :: id in h.chans ==> ReplayMeets(h.chans[id], h.log))
    && (forall id :: id in h.dropped ==> ReplayMeets(h.dropped[id], h.log))
  }

  ghost predicate ReplayMeets(c: Chan, log: seq<Event>) {
    && c.since <= |log|
    && var p := |TimelineIds(log[..c.since])|;
       var k := |TimelineIds(c.replay)|;
       k <= p && TimelineIds(c.replay) == Interval(p - k, p)
  }

  lemma MeetsLonger(c: Chan, log: seq<Event>, e: Event, buffer: seq<Event>)
    requires ReplayMeets(c, log)
    ensures ReplayMeets(c.(buffer := buffer), log + [e])
  {
    assert (log + [e])[..c.since] == log[..c.since];
  }

  lemma NotifyKeepsReplays(h: Hub, e: Event)
    requires AllReplaysMeet(h)
    ensures AllReplaysMeet(Notify(h, e))
  {
    var t := Notify(h, e);
    forall id | id in t.chans
      ensures ReplayMeets(t.chans[id], t.log)
    {
      MeetsLonger(h.chans[id], h.log, e, t.chans[id].buffer);
    }
    forall id | id in t.dropped
      ensures ReplayMeets(t.dropped[id], t.log)
    {
      var c := if id in h.chans && !Fits(h.chans, id, h.capacity) then h.chans[id] else h.dropped[id];
      MeetsLonger(c, h.log, e, c.buffer);
    }
  }

  lemma {:induction false} NotifyAllKeepsReplays(h: Hub, es: seq<Event>)
    requires AllReplaysMeet(h)
    ensures AllReplaysMeet(NotifyAll(h, es))
  {
    if es != [] {
      NotifyAllKeepsReplays(h, es[..|es| - 1]);
      NotifyKeepsReplays(NotifyAll(h, es[..|es| - 1]), es[|es| - 1]);
    }
  }

  lemma LogGrowsNumbered(c: Core, log: seq<Event>, op: Op)
    requires TimelineIds(log) == Interval(0, c.nextId)
    ensures TimelineIds(log + EventsOf(c, op)) == Interval(0, Apply(c, op).nextId)
  {
    TimelineIdsConcat(log, EventsOf(c, op));
    OpIds(c, op);
    IntervalGrows(c.nextId);
    NextIdGrows(c, op);
  }

  lemma IntervalGrows(n: nat)
    ensures Interval(0, n) + [] == Interval(0, n)
    ensures Interval(0, n) + [n as int] == Interval(0, n + 1)
  {
  }

  lemma NextIdGrows(c: Core, op: Op)
    ensures Apply(c, op).nextId == c.nextId + if op.EmitTimeline? then 1 else 0
  {
  }

  lemma EmitNumbered(h: Hub, op: Op)
    requires LogNumbered(h)
    ensures LogNumbered(HubStep(h, Emit(op)))
  {
    var es := EventsOf(h.core, op);
    NotifyAllFrame(h, es);
    NotifyAllKeepsReplays(h, es);
    ApplyKeepsTimeline(h.core, op);
    LogGrowsNumbered(h.core, h.log, op);
    var mid := NotifyAll(h, es);
    assert HubStep(h, Emit(op)) == mid.(core := Apply(h.core, op));
    assert AllReplaysMeet(mid.(core := Apply(h.core, op)));
  }

  lemma SubscribeNumbered(h: Hub)
    requires LogNumbered(h)
    ensures LogNumbered(HubStep(h, Subscribe))
  {
    ReplayedIds(h.core);
    assert h.log[..|h.log|] == h.log;
  }

  lemma TakeMeets(c: Chan, log: seq<Event>)
    requires ReplayMeets(c, log) && c.buffer != []
    ensures ReplayMeets(Take(c), log)
  {
  }

  lemma ReceiveNumbered(h: Hub, id: nat)
    requires LogNumbered(h) && ActEnabled(h, Receive(id))
    ensures LogNumbered(HubStep(h, Receive(id)))
  {
    if id in h.chans && h.chans[id].buffer != [] {
      TakeMeets(h.chans[id], h.log);
    } else {
      TakeMeets(h.dropped[id], h.log);
    }
  }

  lemma StepNumbered(h: Hub, a: Act)
    requires LogNumbered(h) && ActEnabled(h, a)
    ensures LogNumbered(HubStep(h, a))
  {
    match a
    case Emit(op) => EmitNumbered(h, op);
    case Subscribe => SubscribeNumbered(h);
    case Unsubscribe(id) =>
    case Receive(id) => ReceiveNumbered(h, id);
  }

  lemma {:induction false} RunNumbered(h: Hub, acts: seq<Act>)
    requires LogNumbered(h) && HubRun(h, acts).Some?
    ensures LogNumbered(HubRun(h, acts).value)
  {
    if acts != [] {
      HubRunPrefix(h, acts);
      RunNumbered(h, acts[..|acts| - 1]);
      StepNumbered(HubRun(h, acts[..|acts| - 1]).value, acts[|acts| - 1]);
    }
  }

  /** A later part of an interval, cut off anywhere, is an interval. */
  lemma PrefixOfInterval(ids: seq<int>, rest: seq<int>, lo: int, hi: int)
    requires lo <= hi && ids + rest == Interval(lo, hi)
    ensures |ids| <= hi - lo && ids == Interval(lo, lo + |ids|)
  {
    assert |ids| + |rest| == hi - lo;
    assert ids == (ids + rest)[..|ids|];
  }

  /** The ids that came live, given those of everything broadcast since the subscription. */
  lemma LiveIds(c: Chan, h: Hub)
    requires LogNumbered(h) && ReplayMeets(c, h.log) && CarriesPrefix(c, h.log)
    ensures var p := |TimelineIds(h.log[..c.since])|;
            var live := TimelineIds(c.received + c.buffer);
            && p + |live| <= h.core.nextId
            && live == Interval(p, p + |live|)
            && (CarriesAll(c, h.log) ==> p + |live| == h.core.nextId)
  {
    var p := |TimelineIds(h.log[..c.since])|;
    var tail := h.log[c.since..];
    var live := c.received + c.buffer;
    TailIds(h.log, c.since, h.core.nextId);
    assert tail == live + tail[|live|..];
    TimelineIdsConcat(live, tail[|live|..]);
    PrefixOfInterval(TimelineIds(live), TimelineIds(tail[|live|..]), p, h.core.nextId);
    if CarriesAll(c, h.log) {
      assert live == tail;
    }
  }

  lemma TailIds(log: seq<Event>, since: nat, n: nat)
    requires since <= |log| && TimelineIds(log) == Interval(0, n)
    ensures var p := |TimelineIds(log[..since])|;
            p <= n && TimelineIds(log[since..]) == Interval(p, n)
  {
    assert log == log[..since] + log[since..];
    TimelineIdsConcat(log[..since], log[since..]);
    var p := |TimelineIds(log[..since])|;
    assert TimelineIds(log[since..]) == TimelineIds(log)[p..];
  }

  lemma CarriedIds(c: Chan, h: Hub)
    requires LogNumbered(h) && ReplayMeets(c, h.log) && CarriesPrefix(c, h.log)
    ensures var ids := TimelineIds(c.replay + c.received + c.buffer);
            exists lo: int :: IsInterval(ids, lo)
    ensures CarriesAll(c, h.log) ==>
              var ids := TimelineIds(c.replay + c.received + c.buffer);
              |ids| <= h.core.nextId && ids == Interval(h.core.nextId - |ids|, h.core.nextId)
  {
    var p, k := |TimelineIds(h.log[..c.since])|, |TimelineIds(c.replay)|;
    LiveIds(c, h);
    TimelineIdsConcat(c.replay, c.received + c.buffer);
    assert c.replay + (c.received + c.buffer) == c.replay + c.received + c.buffer;
    var ids := TimelineIds(c.replay + c.received + c.buffer);
    assert ids == Interval(p - k, p - k + |ids|);
    assert IsInterval(ids, p - k);
  }

  /**
   On every run, the timeline ids a subscription was given and carried form
   one gap-free interval; for an open one it ends with the latest id.
   */
  lemma SubscriberSeesNoGap(agentType: string, capacity: nat, acts: seq<Act>, id: nat)
    requires HubRun(NewHub(agentType, capacity), acts).Some?
    ensures var h := HubRun(NewHub(agentType, capacity), acts).value;
            && (id in h.chans ==>
                  var c := h.chans[id];
                  var ids := TimelineIds(c.replay + c.received + c.buffer);
                  |ids| <= h.core.nextId && ids == Interval(h.core.nextId - |ids|, h.core.nextId))
            && (id in h.dropped ==>
                  var c := h.dropped[id];
                  var ids := TimelineIds(c.replay + c.received + c.buffer);
                  exists lo: int :: IsInterval(ids, lo))
  {
    var h0 := NewHub(agentType, capacity);
    RunFaithful(h0, acts);
    RunNumbered(h0, acts);
    var h := HubRun(h0, acts).value;
    if id in h.chans {
      CarriedIds(h.chans[id], h);
    }
    if id in h.dropped {
      CarriedIds(h.dropped[id], h);
    }
  }
}

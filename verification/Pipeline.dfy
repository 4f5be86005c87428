/**
 The parts put together: a transcript file read to the end of a poller, and a
 terminal's screen read to a subscriber's copy of the conversation.
 */
module Pipeline {
  import opened Text
  import opened Conversations
  import opened EmitterModel
  import opened Replay
  import opened Timeline
  import opened EventStreams
  import opened Watchers
  import Pty = PtyModel
  import PtyTheorems
  import PtyInvariants
  import Acp = AcpConversations
  import ToolCalls
  import UserInput

  // ------------------------------------------- transcript file -> timeline poller

  /** Events with consecutive ids. */
  ghost function Numbered(events: seq<TimelineEvent>, from: nat): (bodies: seq<TimelineBody>)
    ensures |bodies| == |events|
    ensures forall i :: 0 <= i < |events| ==> bodies[i] == TimelineBody(from + i, events[i])
  {
    seq(|events|, i requires 0 <= i < |events| => TimelineBody(from + i, events[i]))
  }

  /** The timeline events among some operations, in order. */
  ghost function EventsIn(ops: seq<Op>): seq<TimelineEvent> {
    if ops == [] then []
    else EventsIn(ops[..|ops| - 1]) + match ops[|ops| - 1] case EmitTimeline(event) => [event] case _ => []
  }

  /** Whatever else is emitted in between, and whatever is cleared, the stream is numbered consecutively. */
  lemma {:induction false} EmitterNumbersStream(c: Core, ops: seq<Op>)
    requires TimelineKept(c)
    ensures TimelineKept(EmitAll(c, ops))
    ensures EmitAll(c, ops).issued == c.issued + Numbered(EventsIn(ops), c.nextId)
  {
    if ops == [] {
      assert Numbered([], c.nextId) == [];
    } else {
      var n := |ops| - 1;
      EmitterNumbersStream(c, ops[..n]);
      var mid := EmitAll(c, ops[..n]);
      ApplyKeepsTimeline(mid, ops[n]);
      NumberedOneMore(EventsIn(ops[..n]), EventsIn(ops), c.nextId);
    }
  }

  lemma NumberedOneMore(fewer: seq<TimelineEvent>, more: seq<TimelineEvent>, from: nat)
    requires fewer <= more && |more| <= |fewer| + 1
    ensures Numbered(more, from)
      == Numbered(fewer, from) + if |more| == |fewer| then [] else [TimelineBody(from + |fewer|, more[|fewer|])]
  {
  }

  lemma NumberedConcat(a: seq<TimelineEvent>, b: seq<TimelineEvent>, from: nat)
    ensures Numbered(a + b, from) == Numbered(a, from) + Numbered(b, from + |a|)
  {
  }

  ghost function EventsInRounds(rounds: seq<seq<Op>>): seq<TimelineEvent> {
    if rounds == [] then [] else EventsInRounds(rounds[..|rounds| - 1]) + EventsIn(rounds[|rounds| - 1])
  }

  lemma MoreIsIssued(base: seq<TimelineBody>, earlier: seq<TimelineEvent>, c: Core, ops: seq<Op>)
    requires TimelineKept(c) && c.issued == base + Numbered(earlier, |base|)
    ensures TimelineKept(EmitAll(c, ops))
    ensures EmitAll(c, ops).issued == base + Numbered(earlier + EventsIn(ops), |base|)
  {
    EmitterNumbersStream(c, ops);
    assert c.nextId == |base| + |earlier|;
    NumberedOnTop(base, earlier, EventsIn(ops));
  }

  lemma NumberedOnTop(base: seq<TimelineBody>, earlier: seq<TimelineEvent>, events: seq<TimelineEvent>)
    ensures base + Numbered(earlier, |base|) + Numbered(events, |base| + |earlier|) == base + Numbered(earlier + events, |base|)
  {
    NumberedConcat(earlier, events, |base|);
    AppendAssoc(base, Numbered(earlier, |base|), Numbered(events, |base| + |earlier|));
  }

  lemma LastRound(p: Poller, rounds: seq<seq<Op>>)
    requires rounds != []
    ensures Rounds(p, rounds).core == EmitAll(Rounds(p, rounds[..|rounds| - 1]).core, rounds[|rounds| - 1])
  {
  }

  lemma {:induction false} RoundsNumberStream(p: Poller, rounds: seq<seq<Op>>)
    requires TimelineKept(p.core)
    ensures TimelineKept(Rounds(p, rounds).core)
    ensures Rounds(p, rounds).core.issued == p.core.issued + Numbered(EventsInRounds(rounds), p.core.nextId)
  {
    if rounds == [] {
      assert Numbered([], p.core.nextId) == [];
    } else {
      var n := |rounds| - 1;
      RoundsNumberStream(p, rounds[..n]);
      MoreIsIssued(p.core.issued, EventsInRounds(rounds[..n]), Rounds(p, rounds[..n]).core, rounds[n]);
      LastRound(p, rounds);
    }
  }

  /**
   From bytes to poller: the watcher's handler is the emitter.  A poller that
   asks often enough has seen, when it has asked last, exactly the parse of the
   complete lines read of each file in turn, from the start again wherever a
   file was found shorter, with one switch event between two files, numbered
   from 0.
   */
  lemma TranscriptReachesPoller(parse: LineParser, first: Discovery, polls: seq<Poll>,
                                agentType: string, rounds: seq<seq<Op>>)
    requires EventsInRounds(rounds) == Stream(parse, SWITCHED, SessionLines(Sessions(first, polls)))
    requires Unhurried(rounds)
    ensures Rounds(Poller(NewCore(agentType), -1, []), rounds).seen
      == Numbered(Stream(parse, SWITCHED, LinesRead(Sessions(first, polls))), 0)
  {
    var p := Poller(NewCore(agentType), -1, []);
    NothingLostOrRepeated(parse, first, polls);
    PollerMissesNothing(p, rounds);
    RoundsNumberStream(p, rounds);
    var issued := Rounds(p, rounds).core.issued;
    assert issued[0..] == issued;
  }

  // --------------------------------------- terminal screen -> subscriber's copy

  /** The lists handed to EmitMessages, in order. */
  ghost function EmittedLists(acts: seq<Act>): seq<seq<Message>> {
    if acts == [] then []
    else
      var before := EmittedLists(acts[..|acts| - 1]);
      match acts[|acts| - 1]
      case Emit(EmitMessages(messages)) => before + [messages]
      case _ => before
  }

  ghost function LastList(lists: seq<seq<Message>>): seq<Message> {
    if lists == [] then [] else lists[|lists| - 1]
  }

  lemma ActMessages(h: Hub, a: Act)
    requires ActEnabled(h, a)
    ensures HubStep(h, a).core.messages == if a.Emit? && a.op.EmitMessages? then a.op.messages else h.core.messages
  {
  }

  /** The emitter stores the list it was handed last. */
  lemma {:induction false} StoredIsLast(h: Hub, acts: seq<Act>)
    requires HubRun(h, acts).Some? && h.core.messages == []
    ensures HubRun(h, acts).value.core.messages == LastList(EmittedLists(acts))
  {
    if acts != [] {
      HubRunPrefix(h, acts);
      StoredIsLast(h, acts[..|acts| - 1]);
      ActMessages(HubRun(h, acts[..|acts| - 1]).value, acts[|acts| - 1]);
    }
  }

  /** Lists that get no shorter and whose ids are positions keep every copy in step. */
  lemma {:induction false} GrowingListsGrow(h: Hub, acts: seq<Act>)
    requires HubRun(h, acts).Some? && h.core.messages == []
    requires PtyTheorems.GrowingLists(EmittedLists(acts))
    ensures GrowingRun(h, acts)
  {
    if acts != [] {
      var n := |acts| - 1;
      var before := EmittedLists(acts[..n]);
      HubRunPrefix(h, acts);
      StoredIsLast(h, acts[..n]);
      assert EmittedLists(acts) == before || EmittedLists(acts) == before + [LastList(EmittedLists(acts))];
      FewerLists(before, EmittedLists(acts));
      GrowingListsGrow(h, acts[..n]);
    }
  }

  lemma FewerLists(before: seq<seq<Message>>, lists: seq<seq<Message>>)
    requires PtyTheorems.GrowingLists(lists) && before <= lists
    ensures PtyTheorems.GrowingLists(before)
    ensures |before| < |lists| ==>
      Distinct(lists[|before|]) && Extends(LastList(before), lists[|before|])
  {
    assert forall i :: 0 <= i < |before| ==> before[i] == lists[i];
  }

  /**
   From screen to subscriber: the ticks of a conversation hand their histories
   to the emitter.  A subscriber that was not dropped, whenever it subscribed,
   has been given and has waiting exactly what folds to the last of them.
   */
  lemma ScreenReachesSubscriber(cfg: Pty.Config, prompt: seq<Part>, now: int, es: seq<Pty.Event>,
                                agentType: string, capacity: nat, acts: seq<Act>, id: nat)
    requires Pty.Run(Pty.Init(cfg, prompt, now), es).Some?
    requires PtyTheorems.ContinuousRun(Pty.Init(cfg, prompt, now), es)
    requires HubRun(NewHub(agentType, capacity), acts).Some?
    requires EmittedLists(acts) == PtyTheorems.Broadcasts(Pty.Init(cfg, prompt, now), es)
    requires id in HubRun(NewHub(agentType, capacity), acts).value.chans
    ensures var c := HubRun(NewHub(agentType, capacity), acts).value.chans[id];
      SeeAll(BLANK, c.replay + c.received + c.buffer).messages
      == LastList(PtyTheorems.Broadcasts(Pty.Init(cfg, prompt, now), es))
  {
    var s := Pty.Init(cfg, prompt, now);
    PtyInvariants.InitSafe(cfg, prompt, now);
    PtyTheorems.BroadcastsGrow(s, es);
    GrowingListsGrow(NewHub(agentType, capacity), acts);
    ReplayPlusLive(agentType, capacity, acts, id);
    StoredIsLast(NewHub(agentType, capacity), acts);
  }

  /** And what a tick hands over is the history it leaves behind, unless it just restored one. */
  lemma LastBroadcastIsHistory(cfg: Pty.Config, prompt: seq<Part>, now: int, es: seq<Pty.Event>)
    requires es != [] && es[|es| - 1].Tick?
    requires Pty.Run(Pty.Init(cfg, prompt, now), es).Some?
    requires PtyTheorems.ContinuousRun(Pty.Init(cfg, prompt, now), es)
    requires PtyTheorems.Continues(Pty.Run(Pty.Init(cfg, prompt, now), es[..|es| - 1]).value, es[|es| - 1])
    ensures LastList(PtyTheorems.Broadcasts(Pty.Init(cfg, prompt, now), es))
      == Pty.Run(Pty.Init(cfg, prompt, now), es).value.chat.messages
  {
    PtyInvariants.InitSafe(cfg, prompt, now);
    PtyTheorems.LastBroadcast(Pty.Init(cfg, prompt, now), es);
  }

  // ------------------------------------------------- restored text -> formatter

  /**
   When the formatter of the tool calls leaves a restored text alone, so that
   it stays until a user message goes out: a Codex text exactly when it holds
   no finished report and no newline at its end; a Claude text exactly when no
   report begins in it and no newline stands at its start, messages with a blank
   line left over from an unfinished report apart; any other agent's always.
   */
  lemma FormatterLeavesAlone(cfg: Pty.Config, agent: UserInput.AgentType, text: string)
    requires cfg.formatToolCall.Some?
    requires forall t :: cfg.formatToolCall.value(t) == ToolCalls.WithoutReports(agent, t)
    ensures agent.Codex? ==>
      (PtyTheorems.LeftAlone(cfg, text) <==>
        ToolCalls.NoFinishedCall(ToolCalls.CodexMarks(ToolCalls.CODEX, Lines(text))) && !HasSuffix(text, "\n"))
    ensures agent.Claude? ==>
      var marks := ToolCalls.ClaudeMarks(ToolCalls.CLAUDE, Lines("\n" + text));
      !ToolCalls.BlankBeforeLastStart(marks) ==>
      (PtyTheorems.LeftAlone(cfg, text) <==> ToolCalls.NoCallBegun(marks) && !HasPrefix(text, "\n"))
    ensures !agent.Codex? && !agent.Claude? ==> PtyTheorems.LeftAlone(cfg, text)
  {
    if agent.Codex? {
      ToolCalls.CodexLeavesAlone(text);
    } else if agent.Claude? && !ToolCalls.BlankBeforeLastStart(ToolCalls.ClaudeMarks(ToolCalls.CLAUDE, Lines("\n" + text))) {
      ToolCalls.ClaudeLeavesAlone(text);
    }
  }

  // --------------------------------------------- streamed answer -> subscriber's copy

  /**
   A step of a streaming conversation extends its list, ids included, if and
   only if it takes no message away: a clear and a failed prompt do.
   */
  lemma StreamingStepExtends(s: Acp.State, e: Acp.Event)
    requires Acp.Tidy(s) && Acp.Enabled(s, e)
    ensures Distinct(s.messages)
    ensures Extends(s.messages, Acp.Step(s, e).messages) <==>
      s.messages == [] || !(e.Clear? || (e.Finish? && !e.ok))
  {
  }

  /**
   A failed prompt takes its placeholder from the history without a word to
   the subscribers: once a chunk of the answer was shown, copies keep it,
   whatever else they are told later.
   */
  lemma FailedPromptStaysOnCopies(c: Core, s: Acp.State, question: string, asked: int, chunk: string, answering: int,
                                  later: seq<Event>)
    requires Acp.Tidy(s) && !s.prompting && c.messages == s.messages
    ensures var prompted := Acp.Sent(s, question, asked, answering);
      var shown := Acp.Step(prompted, Acp.Event.Chunk(chunk)).messages;
      var failed := Acp.Step(Acp.Step(prompted, Acp.Event.Chunk(chunk)), Acp.Event.Finish(false)).messages;
      var told := Apply(c, EmitMessages(shown));
      && |shown| == |failed| + 1 && failed == shown[..|failed|]
      && SeeAll(View(c), EventsOf(c, EmitMessages(shown))).messages == shown
      && EventsOf(told, EmitMessages(failed)) == []
      && Apply(told, EmitMessages(failed)).messages == failed != shown
      && var copy := SeeAll(SeeAll(View(c), EventsOf(c, EmitMessages(shown))), later).messages;
      && |failed| < |copy| && copy[|failed|].id == shown[|failed|].id
  {
    var prompted := Acp.Sent(s, question, asked, answering);
    var shown := Acp.Step(prompted, Acp.Event.Chunk(chunk));
    Acp.AskedKeeps(s.messages, s.nextID, question, asked, answering);
    Acp.StepKeepsTidy(prompted, Acp.Event.Chunk(chunk));
    StreamingStepExtends(shown, Acp.Event.Finish(false));
    StreamingStepExtends(s, Acp.Event.Clear);
    FollowsUnlessShrunk(c, EmitMessages(shown.messages));
    NoNewsOfLess(shown.messages, Acp.WithoutAnswer(shown.messages), |shown.messages| - 1);
    CopiesOnlyExtend(SeeAll(View(c), EventsOf(c, EmitMessages(shown.messages))), later);
  }

  lemma {:induction false} NoNewsOfLess(before: seq<Message>, after: seq<Message>, n: nat)
    requires n <= |after| && after <= before
    ensures MessageDiff(before, after, n) == []
  {
    if n > 0 {
      NoNewsOfLess(before, after, n - 1);
      assert MessageAt(before, n - 1) == before[n - 1] == after[n - 1];
    }
  }
}
